/** Calls on one database that never overlap get the replies of a sequential service, whatever is done to other
    databases meanwhile. */
module InTurn {
  import opened Bytes
  import opened Log
  import opened Service

  predicate NamesDb(e: Event, db: Name) {
    e.Call? && e.op.db == db
  }

  /** The operations on `db` among the first `n` events of a history, in order. */
  function Before(hist: seq<Event>, n: nat, db: Name): seq<Op>
    requires n <= |hist|
  {
    if n == 0 then []
    else Before(hist, n - 1, db) + if NamesDb(hist[n - 1], db) then [hist[n - 1].op] else []
  }

  function Play(st: Store, ops: seq<Op>): Store
    decreases |ops|
  {
    if ops == [] then st else Play(Effect(st, ops[0]), ops[1..])
  }

  // ---------- One database of a sequential run ----------

  function Only(st: Store, db: Name): Store {
    if db in st then map[db := st[db]] else map[]
  }

  function On(run: seq<Entry>, db: Name): seq<Entry>
    decreases |run|
  {
    if run == [] then [] else (if run[0].op.db == db then [run[0]] else []) + On(run[1..], db)
  }

  lemma OneDatabase(st: Store, op: Op, db: Name)
    ensures op.db == db ==> Respond(Only(st, db), op) == Respond(st, op)
    ensures Only(Effect(st, op), db) == if op.db == db then Effect(Only(st, db), op) else Only(st, db)
  {
    hide KeyedReply, KeyedEffect;
  }

  /** What a run does to one database, it does with the operations on that database alone. */
  lemma {:induction false} OnIsLegal(st: Store, run: seq<Entry>, db: Name)
    requires Legal(st, run)
    ensures Legal(Only(st, db), On(run, db))
    decreases |run|
  {
    hide Effect, Respond, Only;
    if run != [] {
      var e, rest := run[0], On(run[1..], db);
      OneDatabase(st, e.op, db);
      OnIsLegal(Effect(st, e.op), run[1..], db);
      if e.op.db == db {
        LegalCons(Only(st, db), e, rest);
      } else {
        assert [] + rest == rest;
      }
    }
  }

  lemma LegalCons(st: Store, e: Entry, rest: seq<Entry>)
    requires e.reply == Respond(st, e.op) && Legal(Effect(st, e.op), rest)
    ensures Legal(st, [e] + rest)
  {
    hide Effect, Respond;
    assert ([e] + rest)[1..] == rest && ([e] + rest)[0] == e;
  }

  lemma {:induction false} OnMember(run: seq<Entry>, db: Name, e: Entry)
    ensures e in On(run, db) <==> e in run && e.op.db == db
    decreases |run|
  {
    if run != [] {
      OnMember(run[1..], db, e);
      assert e in run <==> e == run[0] || e in run[1..];
    }
  }

  predicate Rising(run: seq<Entry>) {
    forall p, q | 0 <= p < q < |run| :: run[p].id < run[q].id
  }

  lemma {:induction false} OnRises(run: seq<Entry>, db: Name)
    requires forall p, q | 0 <= p < q < |run| :: run[p].op.db == db && run[q].op.db == db ==> run[p].id < run[q].id
    ensures Rising(On(run, db))
    decreases |run|
  {
    if run != [] {
      OnRises(run[1..], db);
      if run[0].op.db == db {
        var rest := On(run[1..], db);
        forall q | 0 <= q < |rest|
          ensures run[0].id < rest[q].id
        {
          OnMember(run[1..], db, rest[q]);
        }
      }
    }
  }

  function Ops(run: seq<Entry>): seq<Op> {
    seq(|run|, i requires 0 <= i < |run| => run[i].op)
  }

  lemma {:induction false} AfterIsPlay(st: Store, run: seq<Entry>)
    ensures After(st, run) == Play(st, Ops(run))
    decreases |run|
  {
    hide Effect;
    if run != [] {
      AfterIsPlay(Effect(st, run[0].op), run[1..]);
      assert Ops(run)[1..] == Ops(run[1..]);
    }
  }

  lemma {:induction false} LegalAt(st: Store, run: seq<Entry>, p: nat)
    requires Legal(st, run) && p < |run|
    ensures run[p].reply == Respond(After(st, run[..p]), run[p].op)
    decreases p
  {
    hide Effect, Respond;
    if p > 0 {
      LegalAt(Effect(st, run[0].op), run[1..], p - 1);
      assert run[..p][1..] == run[1..][..p - 1];
    }
  }

  // ---------- The run against the history ----------

  /** No two calls on `db` overlap. */
  ghost predicate NoOverlap(hist: seq<Event>, db: Name) {
    forall i, j | 0 <= i < j < |hist| && NamesDb(hist[i], db) && NamesDb(hist[j], db) :: Precedes(hist, i, j)
  }

  ghost predicate Entered(hist: seq<Event>, run: seq<Entry>, db: Name) {
    forall e | e in run :: e.id < |hist| && NamesDb(hist[e.id], db) && hist[e.id].op == e.op
  }

  /** The first `p` entries are those of calls before `n`. */
  predicate SplitsAt(run: seq<Entry>, p: nat, n: nat) {
    && p <= |run|
    && (forall q | 0 <= q < p :: run[q].id < n) && (forall q | p <= q < |run| :: n <= run[q].id)
  }

  lemma SplitsNext(run: seq<Entry>, p: nat, n: nat, q: nat)
    requires Rising(run) && SplitsAt(run, p, n) && q < |run| && run[q].id == n
    ensures q == p && SplitsAt(run, p + 1, n + 1)
  {
    assert n <= run[p].id;
  }

  lemma OpsSnoc(run: seq<Entry>, p: nat)
    requires p < |run|
    ensures Ops(run[..p + 1]) == Ops(run[..p]) + [run[p].op]
  {
    assert run[..p + 1] == run[..p] + [run[p]];
  }

  /** Every call on `db` before `n` has an entry. */
  ghost predicate Complete(hist: seq<Event>, run: seq<Entry>, db: Name, n: nat) {
    forall i | 0 <= i < n && i < |hist| && NamesDb(hist[i], db) :: HasId(run, i)
  }

  predicate HasId(run: seq<Entry>, id: nat) {
    exists q :: 0 <= q < |run| && run[q].id == id
  }

  /** The entries before `n` are the calls on `db` before `n`, provided each of these calls is there. */
  lemma {:induction false} EntriesBefore(hist: seq<Event>, run: seq<Entry>, db: Name, n: nat) returns (p: nat)
    requires n <= |hist| && Rising(run) && Entered(hist, run, db) && Complete(hist, run, db, n)
    ensures SplitsAt(run, p, n) && Ops(run[..p]) == Before(hist, n, db)
    decreases n
  {
    hide Rising, Ops, NamesDb;
    if n == 0 {
      p := 0;
      assert Ops([]) == [] by { NoOps(); }
    } else {
      p := EntriesBefore(hist, run, db, n - 1);
      if NamesDb(hist[n - 1], db) {
        assert HasId(run, n - 1);
        var q :| 0 <= q < |run| && run[q].id == n - 1;
        SplitsNext(run, p, n - 1, q);
        OpsSnoc(run, p);
        assert run[p] in run;
        p := p + 1;
      } else {
        assert forall q | p <= q < |run| :: run[q] in run;
      }
    }
  }

  lemma NoOps()
    ensures Ops([]) == []
  {
  }

  /** If no two calls on a database overlap, each gets the reply the service gives after running all earlier calls on
      that database in order, and nothing else. */
  lemma RepliesInTurn(st: Store, hist: seq<Event>, run: seq<Entry>, db: Name, id: nat, reply: Reply)
    requires Explains(st, hist, run) && NoOverlap(hist, db)
    requires Return(id, reply) in hist && id < |hist| && NamesDb(hist[id], db)
    ensures reply == Respond(Play(Only(st, db), Before(hist, id, db)), hist[id].op)
  {
    hide Effect, Respond, Legal, Before, Ops, Play, Only, NoOverlap, On, SplitsAt;
    var on := On(run, db);
    OnRunRises(st, hist, run, db);
    var j :| 0 <= j < |hist| && hist[j] == Return(id, reply);
    var p :| 0 <= p < |run| && run[p].id == id && run[p].reply == reply;
    OnMember(run, db, run[p]);
    AllReturnedEntered(st, hist, run, db, id);
    OnIsLegal(st, run, db);
    var k := EntriesBefore(hist, on, db, id);
    var q :| 0 <= q < |on| && on[q] == run[p];
    hide Explains, Complete, Entered;
    SplitsNext(on, k, id, q);
    LegalAt(Only(st, db), on, k);
    AfterIsPlay(Only(st, db), on[..k]);
  }

  lemma OnRunRises(st: Store, hist: seq<Event>, run: seq<Entry>, db: Name)
    requires Explains(st, hist, run) && NoOverlap(hist, db)
    ensures Rising(On(run, db)) && Entered(hist, On(run, db), db)
  {
    hide Legal, Precedes, On;
    forall p, q | 0 <= p < q < |run| && run[p].op.db == db && run[q].op.db == db
      ensures run[p].id < run[q].id
    {
      assert NamesDb(hist[run[p].id], db) && NamesDb(hist[run[q].id], db);
    }
    OnRises(run, db);
    forall e | e in On(run, db)
      ensures e.id < |hist| && NamesDb(hist[e.id], db) && hist[e.id].op == e.op
    {
      OnMember(run, db, e);
    }
  }

  lemma AllReturnedEntered(st: Store, hist: seq<Event>, run: seq<Entry>, db: Name, id: nat)
    requires Explains(st, hist, run) && NoOverlap(hist, db) && id < |hist| && NamesDb(hist[id], db)
    ensures Complete(hist, On(run, db), db, id)
  {
    hide Legal, On;
    forall i: nat | i < id && NamesDb(hist[i], db)
      ensures HasId(On(run, db), i)
    {
      assert Precedes(hist, i, id);
      var j :| 0 <= j < |hist| && j < id && hist[j].Return? && hist[j].call == i;
      var p :| 0 <= p < |run| && run[p].id == hist[j].call && run[p].reply == hist[j].reply;
      OnMember(run, db, run[p]);
      var q :| 0 <= q < |On(run, db)| && On(run, db)[q] == run[p];
    }
  }

  // ---------- What no sequential run explains ----------

  /** Between two successful creates of one name lies a successful drop of it. */
  lemma {:induction false} CreatesAlternate(st: Store, run: seq<Entry>, p: nat, q: nat)
    requires Legal(st, run) && p < q < |run| && run[p].op.Create? && run[q].op == run[p].op
    requires run[p].reply == Done && run[q].reply == Done
    ensures exists r :: p < r < q && run[r] == Entry(run[r].id, Drop(run[p].op.db), Done)
  {
    hide Legal, KeyedReply, KeyedEffect;
    LegalAt(st, run, q);
    var db := run[p].op.db;
    var j := q;
    while j > p + 1 && !(run[j - 1].op == Drop(db) && run[j - 1].reply == Done)
      invariant p < j <= q && db !in After(st, run[..j])
    {
      LegalAt(st, run, j - 1);
      AfterSnoc(st, run, j - 1);
      j := j - 1;
    }
    if j == p + 1 {
      LegalAt(st, run, p);
      AfterSnoc(st, run, p);
    } else {
      assert run[j - 1] == Entry(run[j - 1].id, Drop(db), Done);
    }
  }

  lemma AfterSnoc(st: Store, run: seq<Entry>, p: nat)
    requires p < |run|
    ensures After(st, run[..p + 1]) == Effect(After(st, run[..p]), run[p].op)
  {
    hide Effect;
    assert run[..p + 1] == run[..p] + [run[p]];
    Joined(st, run[..p], [run[p]]);
    OneStep(After(st, run[..p]), run[p]);
  }

  /** A get that misses a set which was answered before the get was sent is not linearizable. */
  lemma StaleReadIsRefused(st: Store, db: Name, key: Data, value: Data)
    requires db in st
    ensures var put, get := Put(db, key, value), Get(db, key);
            !Linearizable(st, [Call(0, put), Return(0, Done), Call(1, get), Return(2, KeyNotFound)])
  {
    hide Explains, Precedes, Respond, Play, Before;
    var put, get := Put(db, key, value), Get(db, key);
    var hist := [Call(0, put), Return(0, Done), Call(1, get), Return(2, KeyNotFound)];
    if run :| Explains(st, hist, run) {
      PutThenGet(st, db, key, value);
      assert hist[3] == Return(2, KeyNotFound);
      RepliesInTurn(st, hist, run, db, 2, KeyNotFound);
    }
  }

  lemma PutThenGet(st: Store, db: Name, key: Data, value: Data)
    requires db in st
    ensures var put, get := Put(db, key, value), Get(db, key);
            var hist := [Call(0, put), Return(0, Done), Call(1, get), Return(2, KeyNotFound)];
            NoOverlap(hist, db) && Respond(Play(Only(st, db), Before(hist, 2, db)), get) == Found(value)
  {
    var put, get := Put(db, key, value), Get(db, key);
    var hist := [Call(0, put), Return(0, Done), Call(1, get), Return(2, KeyNotFound)];
    assert hist[1] == Return(0, Done) && Precedes(hist, 0, 2);
    assert Before(hist, 1, db) == [put] && Before(hist, 2, db) == [put];
    assert [put][1..] == [];
    assert Play(Only(st, db), [put]) == Play(Effect(Only(st, db), put), []);
    EffectOf(st[db], put);
    hide KeyedEffect;
  }
}
