// The text that client and server sign.  Both sides build it on their own, so it must be
// the same for both, must not depend on the order of the reported lists, and must not be
// the same for two different reports.
module Signing {
  import opened Text
  import opened Ordering

  datatype AttemptItem = AttemptItem(
    level: string, date: string, number: int, xp: int, score: int, completed: bool)

  datatype SyncRequest = SyncRequest(
    event: string, user: string, device: string, keyVersion: int,
    attempts: seq<AttemptItem>, dates: seq<string>, badges: seq<string>)

  function PrintBool(b: bool): string {
    if b then "true" else "false"
  }

  function Line(a: AttemptItem): string {
    Join([a.level, a.date, PrintInt(a.number), PrintInt(a.xp), PrintInt(a.score), PrintBool(a.completed)], ',')
  }

  function Lines(attempts: seq<AttemptItem>): (r: seq<string>)
    ensures |r| == |attempts| && forall i :: 0 <= i < |r| ==> r[i] == Line(attempts[i])
  {
    seq(|attempts|, i requires 0 <= i < |attempts| => Line(attempts[i]))
  }

  function SortedList(parts: seq<string>): string {
    Join(Sort(parts), ';')
  }

  // The client's expression.
  function BuildCanonicalSigningPayload(r: SyncRequest): string {
    Join([r.event, r.user, r.device, PrintInt(r.keyVersion),
          SortedList(Lines(r.attempts)), SortedList(r.dates), SortedList(r.badges)], '|')
  }

  // What the text looks like: seven fields in this order, and six values in each attempt.
  lemma SignedTextLooks(r: SyncRequest)
    ensures BuildCanonicalSigningPayload(r) ==
            r.event + "|" + (r.user + "|" + (r.device + "|" + (PrintInt(r.keyVersion) + "|" +
              (Join(Sort(Lines(r.attempts)), ';') + "|" + (Join(Sort(r.dates), ';') + "|" + Join(Sort(r.badges), ';'))))))
  {
    hide PrintInt, Sort, Lines;
    var k, a, d, b := PrintInt(r.keyVersion), SortedList(Lines(r.attempts)), SortedList(r.dates), SortedList(r.badges);
    JoinFour(k, a, d, b, '|');
    JoinMore(r.device, [k, a, d, b], '|');
    JoinMore(r.user, [r.device, k, a, d, b], '|');
    JoinMore(r.event, [r.user, r.device, k, a, d, b], '|');
    hide Join;
  }

  lemma AttemptLooks(a: AttemptItem)
    ensures Line(a) ==
            a.level + "," + (a.date + "," + (PrintInt(a.number) + "," + (PrintInt(a.xp) + "," +
              (PrintInt(a.score) + "," + (if a.completed then "true" else "false")))))
  {
    hide PrintInt;
    var n, x, s, b := PrintInt(a.number), PrintInt(a.xp), PrintInt(a.score), PrintBool(a.completed);
    JoinFour(n, x, s, b, ',');
    JoinMore(a.date, [n, x, s, b], ',');
    JoinMore(a.level, [a.date, n, x, s, b], ',');
    hide Join;
  }

  lemma JoinMore(a: string, rest: seq<string>, sep: char)
    requires rest != []
    ensures Join([a] + rest, sep) == a + [sep] + Join(rest, sep)
    ensures |rest| == 1 ==> Join(rest, sep) == rest[0]
  {
    assert ([a] + rest)[1..] == rest;
  }

  lemma JoinFour(a: string, b: string, c: string, d: string, sep: char)
    ensures Join([a, b, c, d], sep) == a + [sep] + (b + [sep] + (c + [sep] + d))
  {
    JoinMore(c, [d], sep);
    JoinMore(b, [c, d], sep);
    JoinMore(a, [b, c, d], sep);
    hide Join;
  }

  // ------------------------------------------------------------------ the server

  function LowerChar(c: char): char {
    if 'A' <= c <= 'Z' then ((c as int) + 32) as char else c
  }

  // uuid.UUID prints in lower case.
  function Lower(s: string): (r: string)
    ensures |r| == |s| && forall i :: 0 <= i < |s| ==> r[i] == LowerChar(s[i])
  {
    seq(|s|, i requires 0 <= i < |s| => LowerChar(s[i]))
  }

  function LowerAll(parts: seq<string>): (r: seq<string>)
    ensures |r| == |parts| && forall i :: 0 <= i < |r| ==> r[i] == Lower(parts[i])
  {
    seq(|parts|, i requires 0 <= i < |parts| => Lower(parts[i]))
  }

  function LowerLevels(attempts: seq<AttemptItem>): (r: seq<AttemptItem>)
    ensures |r| == |attempts|
    ensures forall i :: 0 <= i < |r| ==> r[i] == attempts[i].(level := Lower(attempts[i].level))
  {
    seq(|attempts|, i requires 0 <= i < |attempts| => attempts[i].(level := Lower(attempts[i].level)))
  }

  function WithLowerIds(r: SyncRequest): SyncRequest {
    r.(event := Lower(r.event), user := Lower(r.user), device := Lower(r.device),
       attempts := LowerLevels(r.attempts), badges := LowerAll(r.badges))
  }

  // The server's loops append to lists, sort them and join them.
  method CanonicalSigningPayload(r: SyncRequest) returns (text: string)
    ensures text == BuildCanonicalSigningPayload(WithLowerIds(r))
  {
    hide PrintInt, Join, Sort;
    var attempts := [];
    for i := 0 to |r.attempts|
      invariant attempts == Lines(LowerLevels(r.attempts))[..i]
    {
      var a := r.attempts[i];
      attempts := attempts + [Join([Lower(a.level), a.date, PrintInt(a.number), PrintInt(a.xp),
                                    PrintInt(a.score), PrintBool(a.completed)], ',')];
    }
    assert attempts == Lines(LowerLevels(r.attempts));
    attempts := Sort(attempts);
    var badges := [];
    for i := 0 to |r.badges|
      invariant badges == LowerAll(r.badges)[..i]
    {
      badges := badges + [Lower(r.badges[i])];
    }
    assert badges == LowerAll(r.badges);
    badges := Sort(badges);
    text := Join([Lower(r.event), Lower(r.user), Lower(r.device), PrintInt(r.keyVersion),
                  Join(attempts, ';'), Join(Sort(r.dates), ';'), Join(badges, ';')], '|');
  }

  // -------------------------------------------------- the order does not matter

  ghost predicate SameReport(r: SyncRequest, s: SyncRequest) {
    && r.event == s.event && r.user == s.user && r.device == s.device && r.keyVersion == s.keyVersion
    && multiset(r.attempts) == multiset(s.attempts)
    && multiset(r.dates) == multiset(s.dates) && multiset(r.badges) == multiset(s.badges)
  }

  lemma {:induction false} LinesOfSameAttempts(a: seq<AttemptItem>, b: seq<AttemptItem>)
    requires multiset(a) == multiset(b)
    ensures multiset(Lines(a)) == multiset(Lines(b))
    decreases |a|
  {
    hide Line;
    if a == [] {
      assert |multiset(b)| == 0;
    } else {
      var n := |a| - 1;
      assert a[n] in multiset(b);
      var k :| 0 <= k < |b| && b[k] == a[n];
      hide Lines;
      TakeOut(a, n);
      TakeOut(b, k);
      LinesOfSameAttempts(a[..n] + a[n + 1..], b[..k] + b[k + 1..]);
    }
  }

  // Taking one attempt out of a list takes one line out of its lines.
  lemma TakeOut(a: seq<AttemptItem>, k: nat)
    requires k < |a|
    ensures multiset(a[..k] + a[k + 1..]) == multiset(a) - multiset{a[k]}
    ensures multiset(Lines(a)) == multiset(Lines(a[..k] + a[k + 1..])) + multiset{Line(a[k])}
    ensures multiset(a) == multiset(a[..k] + a[k + 1..]) + multiset{a[k]}
  {
    hide Line;
    assert a == a[..k] + [a[k]] + a[k + 1..];
    var rest := a[..k] + a[k + 1..];
    assert Lines(a) == Lines(a)[..k] + [Line(a[k])] + Lines(a)[k + 1..];
    assert Lines(rest) == Lines(a)[..k] + Lines(a)[k + 1..];
  }

  // --------------------------------------------------- different reports differ

  predicate CleanAttempt(a: AttemptItem) {
    && Free(a.level, ',') && Free(a.level, ';') && Free(a.level, '|')
    && Free(a.date, ',') && Free(a.date, ';') && Free(a.date, '|')
  }

  predicate CleanEntry(s: string) {
    s != "" && Free(s, ';') && Free(s, '|')
  }

  // No separator inside a field, no empty streak date or badge.
  ghost predicate Clean(r: SyncRequest) {
    && Free(r.event, '|') && Free(r.user, '|') && Free(r.device, '|')
    && (forall a :: a in r.attempts ==> CleanAttempt(a))
    && (forall d :: d in r.dates ==> CleanEntry(d)) && (forall b :: b in r.badges ==> CleanEntry(b))
  }

  function LineParts(a: AttemptItem): seq<string> {
    [a.level, a.date, PrintInt(a.number), PrintInt(a.xp), PrintInt(a.score), PrintBool(a.completed)]
  }

  lemma LinePartsAreFree(a: AttemptItem, sep: char)
    requires sep in {',', ';', '|'} && Free(a.level, sep) && Free(a.date, sep)
    ensures AllFree(LineParts(a), sep)
  {
    hide PrintInt;
    ReadPrintedInt(a.number);
    ReadPrintedInt(a.xp);
    ReadPrintedInt(a.score);
  }

  lemma LineInjective(a: AttemptItem, b: AttemptItem)
    requires CleanAttempt(a) && CleanAttempt(b) && Line(a) == Line(b)
    ensures a == b
  {
    LinePartsAreFree(a, ',');
    LinePartsAreFree(b, ',');
    JoinInjective(LineParts(a), LineParts(b), ',');
    hide PrintInt, ReadInt;
    var x, y := LineParts(a), LineParts(b);
    assert x[0] == y[0] && x[1] == y[1] && x[2] == y[2] && x[3] == y[3] && x[4] == y[4] && x[5] == y[5];
    ReadPrintedInt(a.number);
    ReadPrintedInt(b.number);
    ReadPrintedInt(a.xp);
    ReadPrintedInt(b.xp);
    ReadPrintedInt(a.score);
    ReadPrintedInt(b.score);
  }

  lemma LineIsClean(a: AttemptItem)
    requires CleanAttempt(a)
    ensures CleanEntry(Line(a))
  {
    LinePartsAreFree(a, ',');
    LinePartsAreFree(a, ';');
    LinePartsAreFree(a, '|');
    JoinIsFree(LineParts(a), ',', ';');
    JoinIsFree(LineParts(a), ',', '|');
    JoinHoldsSeparator(LineParts(a), ',');
  }

  lemma {:induction false} AttemptsOfSameLines(a: seq<AttemptItem>, b: seq<AttemptItem>)
    requires multiset(Lines(a)) == multiset(Lines(b))
    requires (forall x :: x in a ==> CleanAttempt(x)) && (forall x :: x in b ==> CleanAttempt(x))
    ensures multiset(a) == multiset(b)
    decreases |a|
  {
    hide Line;
    if a == [] {
      assert |multiset(Lines(b))| == 0;
    } else {
      var n := |a| - 1;
      assert Lines(a)[n] in multiset(Lines(b));
      var k :| 0 <= k < |b| && Lines(b)[k] == Lines(a)[n];
      assert a[n] in a && b[k] in b;
      assert Line(a[n]) == Lines(a)[n] && Line(b[k]) == Lines(b)[k];
      LineInjective(a[n], b[k]);
      hide Lines;
      TakeOut(a, n);
      TakeOut(b, k);
      var ra, rb := a[..n] + a[n + 1..], b[..k] + b[k + 1..];
      assert multiset(Lines(ra)) == multiset(Lines(a)) - multiset{Line(a[n])};
      assert multiset(Lines(rb)) == multiset(Lines(b)) - multiset{Line(b[k])};
      AttemptsOfSameLines(ra, rb);
    }
  }

  lemma SortedListInjective(a: seq<string>, b: seq<string>)
    requires (forall s :: s in a ==> CleanEntry(s)) && (forall s :: s in b ==> CleanEntry(s))
    ensures SortedList(a) == SortedList(b) <==> multiset(a) == multiset(b)
    ensures Free(SortedList(a), '|')
  {
    hide Sort, Join;
    SortKeepsMembers(a);
    SortKeepsMembers(b);
    JoinIsFree(Sort(a), ';', '|');
    if SortedList(a) == SortedList(b) {
      JoinInjective(Sort(a), Sort(b), ';');
    }
    SortForgetsOrderOnly(a, b);
  }

  function Parts(r: SyncRequest): (parts: seq<string>)
    ensures |parts| == 7
  {
    [r.event, r.user, r.device, PrintInt(r.keyVersion),
     SortedList(Lines(r.attempts)), SortedList(r.dates), SortedList(r.badges)]
  }

  lemma PartsAreFree(r: SyncRequest)
    requires Clean(r)
    ensures AllFree(Parts(r), '|')
    ensures forall s :: s in Lines(r.attempts) ==> CleanEntry(s)
  {
    hide PrintInt, SortedList, Line;
    ReadPrintedInt(r.keyVersion);
    forall i | 0 <= i < |r.attempts|
      ensures CleanEntry(Lines(r.attempts)[i])
    {
      LineIsClean(r.attempts[i]);
    }
    SortedListInjective(Lines(r.attempts), []);
    SortedListInjective(r.dates, []);
    SortedListInjective(r.badges, []);
  }

  // For clean reports the signed text is the same exactly when the reports are the same
  // up to the order of their lists.
  lemma SignedTextIdentifiesReport(r: SyncRequest, s: SyncRequest)
    requires Clean(r) && Clean(s)
    ensures BuildCanonicalSigningPayload(r) == BuildCanonicalSigningPayload(s) <==> SameReport(r, s)
  {
    PartsAreFree(r);
    PartsAreFree(s);
    hide PrintInt, SortedList, Line, ReadInt, Join;
    SortedListInjective(Lines(r.attempts), Lines(s.attempts));
    SortedListInjective(r.dates, s.dates);
    SortedListInjective(r.badges, s.badges);
    if BuildCanonicalSigningPayload(r) == BuildCanonicalSigningPayload(s) {
      JoinInjective(Parts(r), Parts(s), '|');
      var x, y := Parts(r), Parts(s);
      assert x[0] == y[0] && x[1] == y[1] && x[2] == y[2] && x[3] == y[3] && x[4] == y[4] && x[5] == y[5] && x[6] == y[6];
      ReadPrintedInt(r.keyVersion);
      ReadPrintedInt(s.keyVersion);
      AttemptsOfSameLines(r.attempts, s.attempts);
    }
    if SameReport(r, s) {
      LinesOfSameAttempts(r.attempts, s.attempts);
    }
  }

  // Reordering never changes the text, clean or not.
  lemma SignedTextIgnoresOrder(r: SyncRequest, s: SyncRequest)
    requires SameReport(r, s)
    ensures BuildCanonicalSigningPayload(r) == BuildCanonicalSigningPayload(s)
  {
    hide Line, Join, PrintInt, Sort;
    LinesOfSameAttempts(r.attempts, s.attempts);
    SortForgetsOrderOnly(Lines(r.attempts), Lines(s.attempts));
    SortForgetsOrderOnly(r.dates, s.dates);
    SortForgetsOrderOnly(r.badges, s.badges);
  }

  // Cleanness is needed: a separator inside a date, or an empty date, can be mistaken for
  // a different list.
  lemma UncleanReportsCollide(r: SyncRequest, a: string, b: string)
    requires LessEq(a, b)
    ensures BuildCanonicalSigningPayload(r.(dates := [a + ";" + b])) ==
            BuildCanonicalSigningPayload(r.(dates := [a, b]))
    ensures BuildCanonicalSigningPayload(r.(dates := [""])) == BuildCanonicalSigningPayload(r.(dates := []))
  {
    var c := a + ";" + b;
    assert Sort([c]) == [c] && [c][1..] == [];
    assert [a, b][1..] == [b] && [b][1..] == [];
    assert Sort([b]) == [b] && Sort([a, b]) == [a, b];
    assert Join([a, b], ';') == a + [';'] + Join([b], ';') == c;
    assert [""][1..] == [] && Sort([""]) == [""];
    hide Join, Sort, PrintInt;
  }

  lemma JoinAroundSixth(p: seq<string>, x: string)
    requires |p| == 7
    ensures Join(p[5 := x], '|') == Join(p[..5], '|') + "|" + x + "|" + p[6]
  {
    assert p[5 := x] == p[..5] + [x, p[6]];
    JoinConcat(p[..5], [x, p[6]], '|');
    assert [x, p[6]][1..] == [p[6]];
  }

  lemma PayloadAroundDates(r: SyncRequest, dates: seq<string>)
    ensures BuildCanonicalSigningPayload(r.(dates := dates)) ==
            (Join(Parts(r)[..5], '|') + "|") + SortedList(dates) + ("|" + Parts(r)[6])
  {
    hide Join, SortedList, Line, PrintInt;
    JoinAroundSixth(Parts(r), SortedList(dates));
    assert Parts(r.(dates := dates)) == Parts(r)[5 := SortedList(dates)];
  }

  // Two lists of dates give one text, in an otherwise equal report, exactly when they read
  // the same piece by piece once they are sorted and then cut at every separator.
  lemma DatesCollideIff(r: SyncRequest, a: seq<string>, b: seq<string>)
    ensures BuildCanonicalSigningPayload(r.(dates := a)) == BuildCanonicalSigningPayload(r.(dates := b)) <==>
            Pieces(Sort(a), ';') == Pieces(Sort(b), ';')
  {
    PayloadAroundDates(r, a);
    PayloadAroundDates(r, b);
    JoinedAlikeIff(Sort(a), Sort(b), ';');
    hide Join, Sort, Parts, Pieces, BuildCanonicalSigningPayload;
    SameMiddle(Join(Parts(r)[..5], '|') + "|", SortedList(a), SortedList(b), "|" + Parts(r)[6]);
  }

  // Two whole reports give one text exactly when their seven fields have the same pieces.
  lemma ReportsCollideIff(r: SyncRequest, s: SyncRequest)
    ensures BuildCanonicalSigningPayload(r) == BuildCanonicalSigningPayload(s) <==>
            Pieces(Parts(r), '|') == Pieces(Parts(s), '|')
  {
    hide SortedList, Line, PrintInt, Pieces, Join;
    JoinedAlikeIff(Parts(r), Parts(s), '|');
  }

  // When no field holds the separator of fields: exactly when the four plain fields are equal
  // and the sorted lists read the same piece by piece.
  lemma BarFreeReportsCollideIff(r: SyncRequest, s: SyncRequest)
    requires AllFree(Parts(r), '|') && AllFree(Parts(s), '|')
    ensures BuildCanonicalSigningPayload(r) == BuildCanonicalSigningPayload(s) <==>
            && r.event == s.event && r.user == s.user && r.device == s.device && r.keyVersion == s.keyVersion
            && Pieces(Sort(Lines(r.attempts)), ';') == Pieces(Sort(Lines(s.attempts)), ';')
            && Pieces(Sort(r.dates), ';') == Pieces(Sort(s.dates), ';')
            && Pieces(Sort(r.badges), ';') == Pieces(Sort(s.badges), ';')
  {
    hide Line, PrintInt, ReadInt, Pieces, Join, Sort;
    JoinedAlikeIff(Sort(Lines(r.attempts)), Sort(Lines(s.attempts)), ';');
    JoinedAlikeIff(Sort(r.dates), Sort(s.dates), ';');
    JoinedAlikeIff(Sort(r.badges), Sort(s.badges), ';');
    ReadPrintedInt(r.keyVersion);
    ReadPrintedInt(s.keyVersion);
    SamePartsIff(r, s);
    if BuildCanonicalSigningPayload(r) == BuildCanonicalSigningPayload(s) {
      JoinInjective(Parts(r), Parts(s), '|');
    }
    hide Parts;
  }

  lemma SamePartsIff(r: SyncRequest, s: SyncRequest)
    ensures Parts(r) == Parts(s) <==>
            && r.event == s.event && r.user == s.user && r.device == s.device
            && PrintInt(r.keyVersion) == PrintInt(s.keyVersion)
            && SortedList(Lines(r.attempts)) == SortedList(Lines(s.attempts))
            && SortedList(r.dates) == SortedList(s.dates) && SortedList(r.badges) == SortedList(s.badges)
    ensures Parts(r) == Parts(s) ==> BuildCanonicalSigningPayload(r) == BuildCanonicalSigningPayload(s)
  {
    hide Line, PrintInt, Join, Sort, SortedList;
    var x, y := Parts(r), Parts(s);
    assert x == y ==>
      x[0] == y[0] && x[1] == y[1] && x[2] == y[2] && x[3] == y[3] && x[4] == y[4] && x[5] == y[5] && x[6] == y[6];
  }

  lemma SameMiddle(before: string, x: string, y: string, after: string)
    ensures before + x + after == before + y + after <==> x == y
  {
    var s, t := before + x + after, before + y + after;
    if s == t {
      assert |x| == |y|;
      assert x == s[|before|..|before| + |x|] && y == t[|before|..|before| + |y|];
    }
  }

  // ------------------------------------------------- when both sides agree

  predicate IsLower(s: string) {
    forall i :: 0 <= i < |s| ==> !('A' <= s[i] <= 'Z')
  }

  predicate AllIdsLower(r: SyncRequest) {
    && IsLower(r.event) && IsLower(r.user) && IsLower(r.device)
    && (forall i :: 0 <= i < |r.attempts| ==> IsLower(r.attempts[i].level))
    && (forall i :: 0 <= i < |r.badges| ==> IsLower(r.badges[i]))
  }

  function Capitals(s: string): nat {
    if s == "" then 0 else Capitals(s[..|s| - 1]) + if 'A' <= s[|s| - 1] <= 'Z' then 1 else 0
  }

  function CapitalsIn(parts: seq<string>): nat {
    if parts == [] then 0 else Capitals(parts[0]) + CapitalsIn(parts[1..])
  }

  lemma {:induction false} CapitalsAdd(a: string, b: string)
    ensures Capitals(a + b) == Capitals(a) + Capitals(b)
  {
    if b == "" {
      assert a + b == a;
    } else {
      CapitalsAdd(a, b[..|b| - 1]);
      assert (a + b)[..|a + b| - 1] == a + b[..|b| - 1];
    }
  }

  lemma {:induction false} CapitalsOfJoin(parts: seq<string>, sep: char)
    requires !('A' <= sep <= 'Z')
    ensures Capitals(Join(parts, sep)) == CapitalsIn(parts)
  {
    if |parts| > 1 {
      CapitalsOfJoin(parts[1..], sep);
      CapitalsAdd(parts[0], [sep]);
      CapitalsAdd(parts[0] + [sep], Join(parts[1..], sep));
      assert [sep][..0] == "";
    }
  }

  lemma {:induction false} CapitalsOfInsert(x: string, s: seq<string>)
    ensures CapitalsIn(Insert(x, s)) == Capitals(x) + CapitalsIn(s)
  {
    if s == [] || LessEq(x, s[0]) {
      assert ([x] + s)[1..] == s;
    } else {
      CapitalsOfInsert(x, s[1..]);
      assert ([s[0]] + Insert(x, s[1..]))[1..] == Insert(x, s[1..]);
    }
  }

  lemma {:induction false} CapitalsOfSort(s: seq<string>)
    ensures CapitalsIn(Sort(s)) == CapitalsIn(s)
  {
    if s != [] {
      CapitalsOfSort(s[1..]);
      CapitalsOfInsert(s[0], Sort(s[1..]));
    }
  }

  // Lowering removes the capitals, so it is the identity exactly on lower-case text.
  lemma {:induction false} CapitalsOfLower(s: string)
    ensures Capitals(Lower(s)) == 0
    ensures Capitals(s) == 0 <==> IsLower(s)
    ensures IsLower(s) ==> Lower(s) == s
  {
    if s != "" {
      var front := s[..|s| - 1];
      CapitalsOfLower(front);
      assert Lower(s)[..|s| - 1] == Lower(front);
    }
  }

  lemma {:induction false} CapitalsOfLevels(attempts: seq<AttemptItem>)
    ensures CapitalsIn(Lines(LowerLevels(attempts))) <= CapitalsIn(Lines(attempts))
    ensures CapitalsIn(Lines(LowerLevels(attempts))) == CapitalsIn(Lines(attempts)) ==>
              forall i :: 0 <= i < |attempts| ==> IsLower(attempts[i].level)
  {
    if attempts != [] {
      var a, rest := attempts[0], attempts[1..];
      CapitalsOfLevels(rest);
      CapitalsOfLine(a);
      hide Line, IsLower;
      assert Lines(attempts)[1..] == Lines(rest);
      assert Lines(LowerLevels(attempts))[1..] == Lines(LowerLevels(rest));
      assert forall i :: 0 < i < |attempts| ==> attempts[i] == rest[i - 1];
    }
  }

  lemma CapitalsOfLine(a: AttemptItem)
    ensures Capitals(Line(a)) == Capitals(Line(a.(level := Lower(a.level)))) + Capitals(a.level)
    ensures Capitals(a.level) == 0 <==> IsLower(a.level)
  {
    var b := a.(level := Lower(a.level));
    CapitalsOfJoin(LineParts(a), ',');
    CapitalsOfJoin(LineParts(b), ',');
    CapitalsOfLower(a.level);
    assert LineParts(a)[1..] == LineParts(b)[1..];
  }

  lemma {:induction false} CapitalsOfLowerAll(parts: seq<string>)
    ensures CapitalsIn(LowerAll(parts)) == 0
    ensures CapitalsIn(parts) == 0 ==> forall i :: 0 <= i < |parts| ==> IsLower(parts[i])
  {
    if parts != [] {
      CapitalsOfLowerAll(parts[1..]);
      CapitalsOfLower(parts[0]);
      assert LowerAll(parts)[1..] == LowerAll(parts[1..]);
      assert forall i :: 0 < i < |parts| ==> parts[i] == parts[1..][i - 1];
    }
  }

  lemma LowerIdsOfLower(r: SyncRequest)
    requires AllIdsLower(r)
    ensures WithLowerIds(r) == r
  {
    CapitalsOfLower(r.event);
    CapitalsOfLower(r.user);
    CapitalsOfLower(r.device);
    forall i | 0 <= i < |r.attempts|
      ensures LowerLevels(r.attempts)[i] == r.attempts[i]
    {
      CapitalsOfLower(r.attempts[i].level);
    }
    forall i | 0 <= i < |r.badges|
      ensures LowerAll(r.badges)[i] == r.badges[i]
    {
      CapitalsOfLower(r.badges[i]);
    }
    assert LowerLevels(r.attempts) == r.attempts && LowerAll(r.badges) == r.badges;
  }

  function SevenCapitals(r: SyncRequest): nat {
    Capitals(r.event) + Capitals(r.user) + Capitals(r.device) + Capitals(PrintInt(r.keyVersion))
    + CapitalsIn(Lines(r.attempts)) + CapitalsIn(r.dates) + CapitalsIn(r.badges)
  }

  lemma CapitalsOfPayload(r: SyncRequest)
    ensures Capitals(BuildCanonicalSigningPayload(r)) == SevenCapitals(r)
  {
    hide Line, PrintInt, Sort, Join;
    CapitalsOfJoin(Parts(r), '|');
    CapitalsOfSort(Lines(r.attempts));
    CapitalsOfSort(r.dates);
    CapitalsOfSort(r.badges);
    CapitalsOfJoin(Sort(Lines(r.attempts)), ';');
    CapitalsOfJoin(Sort(r.dates), ';');
    CapitalsOfJoin(Sort(r.badges), ';');
    CapitalsOfSeven(Parts(r));
  }

  lemma CapitalsOfSeven(p: seq<string>)
    requires |p| == 7
    ensures CapitalsIn(p) == Capitals(p[0]) + Capitals(p[1]) + Capitals(p[2]) + Capitals(p[3])
                             + Capitals(p[4]) + Capitals(p[5]) + Capitals(p[6])
  {
    hide Capitals;
    assert CapitalsIn(p[7..]) == 0;
    assert CapitalsIn(p[6..]) == Capitals(p[6]) + CapitalsIn(p[6..][1..]) && p[6..][1..] == p[7..];
    assert CapitalsIn(p[5..]) == Capitals(p[5]) + CapitalsIn(p[5..][1..]) && p[5..][1..] == p[6..];
    assert CapitalsIn(p[4..]) == Capitals(p[4]) + CapitalsIn(p[4..][1..]) && p[4..][1..] == p[5..];
    assert CapitalsIn(p[3..]) == Capitals(p[3]) + CapitalsIn(p[3..][1..]) && p[3..][1..] == p[4..];
    assert CapitalsIn(p[2..]) == Capitals(p[2]) + CapitalsIn(p[2..][1..]) && p[2..][1..] == p[3..];
    assert CapitalsIn(p[1..]) == Capitals(p[1]) + CapitalsIn(p[1..][1..]) && p[1..][1..] == p[2..];
  }

  // Client and server sign the same text exactly when the client's ids are in lower case.
  lemma BothSidesAgreeIffLower(r: SyncRequest)
    ensures BuildCanonicalSigningPayload(WithLowerIds(r)) == BuildCanonicalSigningPayload(r) <==> AllIdsLower(r)
  {
    if AllIdsLower(r) {
      LowerIdsOfLower(r);
    } else {
      hide BuildCanonicalSigningPayload, Capitals, CapitalsIn, PrintInt, Line;
      CapitalsOfPayload(r);
      CapitalsOfPayload(WithLowerIds(r));
      CapitalsOfLower(r.event);
      CapitalsOfLower(r.user);
      CapitalsOfLower(r.device);
      CapitalsOfLevels(r.attempts);
      CapitalsOfLowerAll(r.badges);
      assert SevenCapitals(WithLowerIds(r)) < SevenCapitals(r);
    }
  }
}
