/** What the service promises its clients: a map of databases, and histories that some sequential run explains. */
module Service {
  import opened Bytes
  import opened Log

  type Name = Data
  type Store = map<Name, Index>

  /** The ASCII bytes of "default". */
  const DEFAULT: Name := [100, 101, 102, 97, 117, 108, 116]

  datatype Op =
    | Get(db: Name, key: Data)
    | Put(db: Name, key: Data, value: Data)
    | Del(db: Name, key: Data)
    | Create(db: Name)
    | Drop(db: Name)
  {
    predicate Keyed() {
      Get? || Put? || Del?
    }
  }

  /** `NoReply` is a connection closed without a response. */
  datatype Reply = Done | Found(value: Data) | KeyNotFound | DbNotFound | AlreadyExists | CannotDropDefault | NoReply

  // ---------- One database ----------

  function KeyedReply(m: Index, op: Op): Reply
    requires op.Keyed()
  {
    match op
    case Get(_, key) => if key in m then Found(m[key]) else KeyNotFound
    case Put(_, _, _) => Done
    case Del(_, key) => if key in m then Done else KeyNotFound
  }

  function Logs(op: Op): seq<Record>
    requires op.Keyed()
  {
    match op
    case Get(_, _) => []
    case Put(_, key, value) => [Set(key, value)]
    case Del(_, key) => [Delete(key)]
  }

  function KeyedEffect(m: Index, op: Op): Index
    requires op.Keyed()
  {
    ReplayFrom(m, Logs(op))
  }

  lemma EffectOf(m: Index, op: Op)
    requires op.Keyed()
    ensures KeyedEffect(m, op) == match op
              case Get(_, _) => m
              case Put(_, key, value) => m[key := value]
              case Del(_, key) => m - {key}
  {
    if Logs(op) != [] {
      var r := Logs(op)[0];
      assert Logs(op)[1..] == [];
      assert ReplayFrom(m, Logs(op)) == ReplayFrom(Apply(m, r), []);
    }
  }

  // ---------- All databases, one operation at a time ----------

  function Respond(st: Store, op: Op): Reply {
    match op
    case Create(db) => if db in st then AlreadyExists else Done
    case Drop(db) => if db == DEFAULT then CannotDropDefault else if db in st then Done else NoReply
    case _ => if op.db in st then KeyedReply(st[op.db], op) else DbNotFound
  }

  function Effect(st: Store, op: Op): Store {
    match op
    case Create(db) => if db in st then st else st[db := map[]]
    case Drop(db) => if db == DEFAULT then st else st - {db}
    case _ => if op.db in st then st[op.db := KeyedEffect(st[op.db], op)] else st
  }

  // ---------- Sequential runs ----------

  /** One operation of a sequential run: which call it explains, and the reply it gave. */
  datatype Entry = Entry(id: nat, op: Op, reply: Reply)

  function After(st: Store, run: seq<Entry>): Store
    decreases |run|
  {
    if run == [] then st else After(Effect(st, run[0].op), run[1..])
  }

  predicate Legal(st: Store, run: seq<Entry>)
    decreases |run|
  {
    run == [] || (run[0].reply == Respond(st, run[0].op) && Legal(Effect(st, run[0].op), run[1..]))
  }

  lemma {:induction false} Joined(st: Store, a: seq<Entry>, b: seq<Entry>)
    ensures After(st, a + b) == After(After(st, a), b)
    ensures Legal(st, a + b) <==> Legal(st, a) && Legal(After(st, a), b)
    decreases |a|
  {
    hide Effect, Respond;
    if a == [] {
      assert a + b == b;
    } else {
      assert (a + b)[0] == a[0] && (a + b)[1..] == a[1..] + b;
      Joined(Effect(st, a[0].op), a[1..], b);
    }
  }

  lemma OneStep(st: Store, e: Entry)
    ensures After(st, [e]) == Effect(st, e.op)
    ensures Legal(st, [e]) <==> e.reply == Respond(st, e.op)
  {
    hide Effect, Respond;
    assert [e][1..] == [];
  }

  lemma Appended(st: Store, run: seq<Entry>, e: Entry)
    requires Legal(st, run) && e.reply == Respond(After(st, run), e.op)
    ensures Legal(st, run + [e]) && After(st, run + [e]) == Effect(After(st, run), e.op)
  {
    Joined(st, run, [e]);
    OneStep(After(st, run), e);
  }

  /** A keyed operation on a database fits in just before the drop of that database and changes nothing after it. */
  lemma FitsBeforeDrop(st: Store, run: seq<Entry>, at: nat, e: Entry)
    requires Legal(st, run) && at < |run| && run[at].op == Drop(e.op.db) && e.op.db != DEFAULT && e.op.Keyed()
    requires e.op.db in After(st, run[..at]) && e.reply == KeyedReply(After(st, run[..at])[e.op.db], e.op)
    ensures var longer := run[..at] + [e] + run[at..];
            && Legal(st, longer) && After(st, longer) == After(st, run)
            && After(st, longer[..at + 1]) == Effect(After(st, run[..at]), e.op)
  {
    hide KeyedReply, KeyedEffect;
    var before := After(st, run[..at]);
    var drop, rest := run[at], run[at + 1..];
    assert run == run[..at] + run[at..] && run[at..] == [drop] + rest;
    Joined(st, run[..at], run[at..]);
    Joined(before, [drop], rest);
    OneStep(before, drop);
    Appended(st, run[..at], e);
    var after := Effect(before, e.op);
    Joined(st, run[..at] + [e], run[at..]);
    Joined(after, [drop], rest);
    OneStep(after, drop);
    assert Effect(after, drop.op) == Effect(before, drop.op);
    assert (run[..at] + [e] + run[at..])[..at + 1] == run[..at] + [e];
  }

  // ---------- Histories ----------

  /** What clients see, in real time. A response names its call by the position of the call in the history. */
  datatype Event = Call(client: nat, op: Op) | Return(call: nat, reply: Reply)

  /** Call `a` returned before call `b` was made. */
  ghost predicate Precedes(hist: seq<Event>, a: nat, b: nat) {
    exists j :: 0 <= j < |hist| && j < b && hist[j].Return? && hist[j].call == a
  }

  /** `run` explains the history: a legal sequential run from `st` of calls of the history, each at most once,
      that has every reply the clients got and never swaps two calls one of which returned before the other. */
  ghost predicate Explains(st: Store, hist: seq<Event>, run: seq<Entry>) {
    && Legal(st, run)
    && (forall p | 0 <= p < |run| :: run[p].id < |hist| && hist[run[p].id].Call? && hist[run[p].id].op == run[p].op)
    && (forall p, q | 0 <= p < q < |run| :: run[p].id != run[q].id)
    && (forall j | 0 <= j < |hist| && hist[j].Return? ::
          exists p :: 0 <= p < |run| && run[p].id == hist[j].call && run[p].reply == hist[j].reply)
    && (forall p, q | 0 <= p < q < |run| :: !Precedes(hist, run[q].id, run[p].id))
  }

  ghost predicate Linearizable(st: Store, hist: seq<Event>) {
    exists run :: Explains(st, hist, run)
  }
}
