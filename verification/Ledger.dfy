// The server's tables for progress and XP, and what each committed transaction does to
// them.  A serializable transaction is one step.
module Ledger {
  import opened Wrappers

  // UUIDs and calendar days are plain ordered values; 0 is the nil UUID.
  type Id = nat
  type Day = int
  const NIL: Id := 0

  datatype AttemptRow = AttemptRow(user: Id, level: Id, day: Day, number: int, xp: int, completed: bool)
  datatype HistoryRow = HistoryRow(user: Option<Id>, level: Id, xp: int, event: Option<Id>)
  datatype ProgressRow = ProgressRow(best: int, xp: int, attempts: nat, everCompleted: bool)
  datatype LevelRow = LevelRow(difficulty: int, published: bool)
  datatype DeviceRow = DeviceRow(user: Id, revoked: bool, wipe: bool)
  datatype Status = Pending | Processed | Rejected
  datatype EventRow = EventRow(user: Id, payload: Payload, status: Status)

  // What a client reports; None stands for a date that does not parse.
  datatype Item = Item(level: Id, day: Option<Day>, score: int, completed: bool)
  datatype Payload = Payload(items: seq<Item>, streak: seq<Option<Day>>)
  datatype Request = Request(event: Id, user: Id, device: Id, payload: Payload)

  datatype Tables = Tables(
    attempts: seq<AttemptRow>,
    history: seq<HistoryRow>,
    progress: map<(Id, Id), ProgressRow>,
    streak: set<(Id, Day)>,
    earned: set<(Id, Id)>,
    events: map<Id, EventRow>,
    devices: map<Id, DeviceRow>,
    levels: map<Id, LevelRow>,
    badges: map<Id, int>)

  // ---------------------------------------------------------------- sums over rows

  function Total<T>(rows: seq<T>, f: T -> int): int {
    if rows == [] then 0 else Total(rows[..|rows| - 1], f) + f(rows[|rows| - 1])
  }

  function IsTry(u: Id, l: Id, day: Day): AttemptRow -> int {
    (r: AttemptRow) => if r.user == u && r.level == l && r.day == day then 1 else 0
  }

  function OwnXp(u: Id): HistoryRow -> int {
    (r: HistoryRow) => if r.user == Some(u) then r.xp else 0
  }

  lemma TotalAppend<T>(rows: seq<T>, row: T, f: T -> int)
    ensures Total(rows + [row], f) == Total(rows, f) + f(row)
  {
    assert (rows + [row])[..|rows|] == rows;
  }

  // ------------------------------------------------------------------- experience

  // Base 4 * difficulty: all of it for the first try of the day, half for the next two.
  function Xp(difficulty: int, number: int, completed: bool): int {
    if !completed || difficulty <= 0 then 0
    else
      var base := 4 * difficulty;
      if number == 1 then base else if number <= 3 then base / 2 else 0
  }

  // ------------------------------------------------------------------ table updates

  function CountTries(t: Tables, u: Id, l: Id, day: Day): int {
    Total(t.attempts, IsTry(u, l, day))
  }

  function TotalXp(t: Tables, u: Id): int {
    Total(t.history, OwnXp(u))
  }

  function Upserted(p: map<(Id, Id), ProgressRow>, u: Id, l: Id, score: int, xp: int, completed: bool): ProgressRow {
    if (u, l) in p then
      var r := p[(u, l)];
      ProgressRow(if r.best >= score then r.best else score, r.xp + xp, r.attempts + 1, r.everCompleted || completed)
    else ProgressRow(score, xp, 1, completed)
  }

  // One attempt: the same rows whether it was reported online or by a sync event.
  function Recorded(t: Tables, u: Id, l: Id, day: Day, score: int, completed: bool, event: Option<Id>): Tables
    requires l in t.levels
  {
    var number := CountTries(t, u, l, day) + 1;
    var xp := Xp(t.levels[l].difficulty, number, completed);
    t.(attempts := t.attempts + [AttemptRow(u, l, day, number, xp, completed)],
       progress := t.progress[(u, l) := Upserted(t.progress, u, l, score, xp, completed)],
       history := t.history + [HistoryRow(Some(u), l, xp, event)])
  }

  function Eligible(t: Tables, u: Id): set<(Id, Id)> {
    set b | b in t.badges && t.badges[b] <= TotalXp(t, u) :: (u, b)
  }

  function Awarded(t: Tables, u: Id): Tables {
    t.(earned := t.earned + Eligible(t, u))
  }

  // --------------------------------------------------------------- online completion

  datatype Outcome = Done | Invalid | NotFound | AlreadyProcessed | BadSignature

  predicate Playable(t: Tables, l: Id) {
    l in t.levels && t.levels[l].published
  }

  function CompleteLevel(t: Tables, u: Id, l: Id, day: Day, score: int, completed: bool): (Tables, Outcome) {
    if u == NIL || l == NIL || score < 0 then (t, Invalid)
    else if !Playable(t, l) then (t, NotFound)
    else
      var a := Recorded(t, u, l, day, score, completed, None);
      var b := if completed then a.(streak := a.streak + {(u, day)}) else a;
      (Awarded(b, u), Done)
  }

  // -------------------------------------------------------------------- offline sync

  predicate ActiveDevice(t: Tables, device: Id, u: Id) {
    device in t.devices && t.devices[device].user == u && !t.devices[device].revoked
  }

  predicate GoodItem(t: Tables, today: Day, i: Item) {
    i.day.Some? && i.day.value <= today && i.score >= 0 && Playable(t, i.level)
  }

  predicate GoodPayload(t: Tables, today: Day, p: Payload) {
    && (forall k :: 0 <= k < |p.items| ==> GoodItem(t, today, p.items[k]))
    && (forall k :: 0 <= k < |p.streak| ==> p.streak[k].Some? && p.streak[k].value <= today)
  }

  function AllRecorded(t: Tables, u: Id, items: seq<Item>, event: Id): (r: Tables)
    requires forall k :: 0 <= k < |items| ==> items[k].day.Some? && items[k].level in t.levels
    ensures r.levels == t.levels && r.badges == t.badges && r.devices == t.devices && r.events == t.events
    ensures r.streak == t.streak && r.earned == t.earned
  {
    if items == [] then t
    else
      var prev, i := AllRecorded(t, u, items[..|items| - 1], event), items[|items| - 1];
      Recorded(prev, u, i.level, i.day.value, i.score, i.completed, Some(event))
  }

  function StreakDays(u: Id, days: seq<Option<Day>>): set<(Id, Day)> {
    set k | 0 <= k < |days| && days[k].Some? :: (u, days[k].value)
  }

  function Merged(t: Tables, req: Request): Tables
    requires forall k :: 0 <= k < |req.payload.items| ==>
               req.payload.items[k].day.Some? && req.payload.items[k].level in t.levels
  {
    var a := AllRecorded(t, req.user, req.payload.items, req.event);
    var b := a.(streak := a.streak + StreakDays(req.user, req.payload.streak),
                events := a.events[req.event := EventRow(req.user, req.payload, Processed)]);
    Awarded(b, req.user)
  }

  // signed says whether the signature check succeeds; nothing else about it matters.
  function ProcessSync(t: Tables, req: Request, signed: bool, today: Day): (Tables, Outcome) {
    if req.event == NIL || req.user == NIL || req.device == NIL then (t, Invalid)
    else if !ActiveDevice(t, req.device, req.user) then (t, Invalid)
    else if req.event in t.events then (t, AlreadyProcessed)
    else
      var rejected := t.(events := t.events[req.event := EventRow(req.user, req.payload, Rejected)]);
      if !signed then (rejected, BadSignature)
      else if !GoodPayload(t, today, req.payload) then (rejected, Invalid)
      else (Merged(t, req), Done)
  }

  // --------------------------------------------------------------------- cancellation

  function Kept(rows: seq<AttemptRow>, u: Id): seq<AttemptRow> {
    if rows == [] then []
    else
      var rest, r := Kept(rows[..|rows| - 1], u), rows[|rows| - 1];
      if r.user == u then rest else rest + [r]
  }

  function Nulled(rows: seq<HistoryRow>, u: Id): seq<HistoryRow> {
    if rows == [] then []
    else
      var r := rows[|rows| - 1];
      Nulled(rows[..|rows| - 1], u) + [if r.user == Some(u) then r.(user := None) else r]
  }

  // Progress is purged, the append-only history is kept without the user.
  function CancelUser(t: Tables, u: Id): Tables {
    t.(history := Nulled(t.history, u),
       progress := (map k | k in t.progress && k.0 != u :: t.progress[k]),
       attempts := Kept(t.attempts, u),
       streak := (set s | s in t.streak && s.0 != u),
       earned := (set e | e in t.earned && e.0 != u),
       devices := map d | d in t.devices ::
                    if t.devices[d].user == u && !t.devices[d].revoked then t.devices[d].(wipe := true)
                    else t.devices[d])
  }

  // ------------------------------------------------------------------------- steps

  datatype Action =
    | Complete(user: Id, level: Id, day: Day, score: int, completed: bool)
    | Sync(req: Request, signed: bool, today: Day)
    | Cancel(user: Id)
    | SetLevel(level: Id, row: LevelRow)
    | SetDevice(device: Id, dev: DeviceRow)

  function Apply(t: Tables, a: Action): Tables {
    match a
    case Complete(u, l, day, score, completed) => CompleteLevel(t, u, l, day, score, completed).0
    case Sync(req, signed, today) => ProcessSync(t, req, signed, today).0
    case Cancel(u) => CancelUser(t, u)
    case SetLevel(l, row) => t.(levels := t.levels[l := row])
    case SetDevice(d, row) => t.(devices := t.devices[d := row])
  }

  function Run(t: Tables, actions: seq<Action>): Tables {
    if actions == [] then t else Apply(Run(t, actions[..|actions| - 1]), actions[|actions| - 1])
  }

  // Empty progress tables beside any content, devices and badges.
  predicate Initial(t: Tables) {
    t.attempts == [] && t.history == [] && t.progress == map[] && t.streak == {} && t.earned == {} && t.events == map[]
  }
}
