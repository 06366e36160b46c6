/** The stack's transmit step (tcp-core/src/iface.rs): drain every connection until it has nothing to
    send, then reap the closed ones. The inner loop has no bound of its own; that it ends is
    `ConnectionRuns.PollLowersDebt`. */
module StackImpl {
  import opened Options
  import opened Endpoint
  import opened Connection
  import opened Sending
  import opened ConnectionRuns
  import opened TcbImages
  import opened TcbImpl
  import E = Endpoint

  // ── what draining one connection comes to ───────────────────────────────────────────────────

  lemma DebtFalls(e: E.Endpoint, env: Env)
    requires Consistent(e)
    ensures Consistent(Poll(e, env).0)
    ensures Poll(e, env).1.Some? ==> Less(DebtOf(Poll(e, env).0), DebtOf(e))
  {
    hide Consistent, Poll, Less, DebtOf;
    PollOk(e, env);
    if Poll(e, env).1.Some? { PollLowersDebt(e, env); }
  }

  /** Poll until there is nothing to send. */
  function Drained(e: E.Endpoint, env: Env): (E.Endpoint, seq<E.Segment>)
    requires Consistent(e)
    decreases DebtOf(e).rst, DebtOf(e).unsent, DebtOf(e).holes, DebtOf(e).again, DebtOf(e).probe, DebtOf(e).ack
  {
    DebtFalls(e, env);
    var (f, g) := Poll(e, env);
    if g.None? then (f, []) else (Drained(f, env).0, [g.value] + Drained(f, env).1)
  }

  /** A live connection stays live while it is drained, and once drained anything it still owes has
      a deadline: the caller may sleep until `PollAt`. */
  lemma {:induction false} DrainedNeverWedges(e: E.Endpoint, env: Env)
    requires Consistent(e) && Live(e)
    ensures var d := Drained(e, env).0;
            && Live(d) && Consistent(d) && (Owing(d) ==> E.PollAt(d).Some?)
            && (E.PollAt(d).Some? ==> LeastArmed(d.t, E.PollAt(d).value))
    decreases DebtOf(e).rst, DebtOf(e).unsent, DebtOf(e).holes, DebtOf(e).again, DebtOf(e).probe, DebtOf(e).ack
  {
    hide Consistent, Poll, Owing, E.PollAt, DebtOf, LeastArmed;
    DebtFalls(e, env);
    StaysLive(e, env);
    if Poll(e, env).1.None? {
      NoSilentWedge(e, env);
    } else {
      DrainedNeverWedges(Poll(e, env).0, env);
    }
  }

  lemma StaysLive(e: E.Endpoint, env: Env)
    requires Consistent(e) && Live(e)
    ensures Live(Poll(e, env).0)
  {
    PollOk(e, env);
    hide Consistent, Poll, Stamp;
    if e.owedRst.None? && Poll(e, env).1.Some? {
      var k :| Emits(k, e, Poll(e, env).0, Poll(e, env).1.value);
    }
  }

  function OnTheWire(segs: seq<E.Segment>): (w: seq<WireSegment>)
    ensures |w| == |segs|
  {
    seq(|segs|, i requires 0 <= i < |segs| => AsSent(segs[i]))
  }

  lemma WireAppend(segs: seq<E.Segment>, g: E.Segment)
    ensures OnTheWire(segs + [g]) == OnTheWire(segs) + [AsSent(g)]
  {}

  /** The inner loop: every segment the connection wants to send now, in order. */
  method Drain(t: Tcb, env: Env) returns (out: seq<WireSegment>)
    requires t.Valid() && Ready(t.at)
    modifies t, t.scoreboard
    ensures t.Valid() && Ready(t.at)
    ensures t.at == Drained(old(t.at), env).0 && out == OnTheWire(Drained(old(t.at), env).1)
  {
    hide Tcb.Valid, Ready, Consistent, Poll, DebtOf, AsSent;
    out := [];
    ghost var sent: seq<E.Segment> := [];
    ghost var e0 := t.at;
    ReadyIsConsistent(e0);
    assert [] + Drained(e0, env).1 == Drained(e0, env).1;
    while true
      invariant t.Valid() && Ready(t.at) && Consistent(t.at) && Consistent(e0)
      invariant out == OnTheWire(sent)
      invariant Drained(e0, env) == (Drained(t.at, env).0, sent + Drained(t.at, env).1)
      decreases DebtOf(t.at).rst, DebtOf(t.at).unsent, DebtOf(t.at).holes,
                DebtOf(t.at).again, DebtOf(t.at).probe, DebtOf(t.at).ack
    {
      ghost var e := t.at;
      DebtFalls(e, env);
      var w := t.PollTransmit(env);
      if w.None? {
        assert sent + [] == sent;
        break;
      }
      ghost var g := Poll(e, env).1.value;
      WireAppend(sent, g);
      assert sent + ([g] + Drained(t.at, env).1) == (sent + [g]) + Drained(t.at, env).1;
      out := out + [w.value];
      sent := sent + [g];
    }
  }

  lemma ReadyIsConsistent(e: E.Endpoint)
    requires Ready(e)
    ensures Consistent(e)
  {}

  // ── the stack ───────────────────────────────────────────────────────────────────────────────

  /** A remote endpoint: the key of the connection table. */
  datatype Remote = Remote(ip: nat, port: nat)

  /** Everything the connections of `order` want to send, connection by connection. */
  function Emitted(order: seq<Remote>, was: map<Remote, E.Endpoint>, env: Env): seq<E.Segment>
    requires forall k :: k in order ==> k in was && Consistent(was[k])
  {
    if order == [] then [] else Drained(was[order[0]], env).1 + Emitted(order[1..], was, env)
  }

  lemma {:induction false} EmittedMore(order: seq<Remote>, k: Remote, was: map<Remote, E.Endpoint>, env: Env)
    requires forall j :: j in order + [k] ==> j in was && Consistent(was[j])
    ensures forall j :: j in order ==> j in was && Consistent(was[j])
    ensures k in was && Consistent(was[k])
    ensures Emitted(order + [k], was, env) == Emitted(order, was, env) + Drained(was[k], env).1
  {
    hide Consistent, Drained;
    assert k in order + [k];
    assert forall j :: j in order ==> j in order + [k];
    if order == [] {
      assert [k][1..] == [];
    } else {
      assert (order + [k])[1..] == order[1..] + [k];
      EmittedMore(order[1..], k, was, env);
    }
  }

  lemma {:induction false} WireConcat(a: seq<E.Segment>, b: seq<E.Segment>)
    ensures OnTheWire(a + b) == OnTheWire(a) + OnTheWire(b)
  {}

  /** Connections share no object with one another. */
  ghost predicate Apart(table: map<Remote, Tcb>) {
    forall j, k :: j in table && k in table && j != k ==> table[j].Footprint() !! table[k].Footprint()
  }

  /** `t` is in working order and stands for `e`. */
  ghost predicate Holds(t: Tcb, e: E.Endpoint)
    reads t.Footprint()
  {
    t.Valid() && Ready(t.at) && t.at == e
  }

  /** `t` holds `e`, all its objects among `objects`. */
  ghost predicate HoldsIn(t: Tcb, e: E.Endpoint, objects: set<object>)
    reads objects
  {
    t.Footprint() <= objects && Holds(t, e)
  }

  ghost predicate Keeps(e: E.Endpoint, env: Env)
    requires Consistent(e)
  {
    !Drained(e, env).0.state.Closed?
  }

  lemma Others(table: map<Remote, Tcb>, j: Remote, k: Remote)
    requires Apart(table) && j in table && k in table && j != k
    ensures table[j].Footprint() !! {table[k], table[k].scoreboard}
  {
    assert table[k] in table[k].Footprint() && table[k].scoreboard in table[k].Footprint();
  }

  ghost predicate Listed(order: seq<Remote>, table: map<Remote, Tcb>, was: map<Remote, E.Endpoint>) {
    forall j :: 0 <= j < |order| ==> order[j] in table && order[j] in was && Consistent(was[order[j]])
  }

  class Stack {
    var pending: seq<WireSegment>
    var conns: map<Remote, Tcb>

    ghost var repr: set<object>

    /** The connections' objects are apart from the stack and from one another. */
    ghost predicate Owns()
      reads this
    {
      this !in repr && Apart(conns) && forall k :: k in conns ==> conns[k].Footprint() <= repr
    }

    /** A closed connection leaves the table. */
    method Reap(k: Remote)
      requires k in conns
      modifies `conns
      ensures conns == if old(conns)[k].state.Closed? then old(conns) - {k} else old(conns)
    {
      if conns[k].state.Closed? { conns := conns - {k}; }
    }

    /** From `i` on, nothing has been touched. */
    ghost predicate Waiting(order: seq<Remote>, i: nat, table: map<Remote, Tcb>, was: map<Remote, E.Endpoint>)
      requires Listed(order, table, was)
      reads this, repr
    {
      forall j :: i <= j < |order| ==> order[j] in conns && HoldsIn(table[order[j]], was[order[j]], repr)
    }

    /** `k` has been drained from `e`, and is in the table unless that closed it. */
    ghost predicate Served(k: Remote, t: Tcb, e: E.Endpoint, env: Env)
      requires Consistent(e)
      reads this, repr
    {
      (k in conns <==> Keeps(e, env)) && HoldsIn(t, Drained(e, env).0, repr)
    }

    /** The first `i` connections of `order` have been drained from what they were, the closed ones
        of them reaped; the rest wait untouched. */
    ghost predicate Midway(order: seq<Remote>, i: nat, env: Env, table: map<Remote, Tcb>, was: map<Remote, E.Endpoint>)
      reads this, repr
    {
      && i <= |order| && this !in repr && Apart(table) && Listed(order, table, was)
      && (forall k :: k in conns ==> k in table && conns[k] == table[k])
      && Waiting(order, i, table, was)
      && (forall j :: 0 <= j < i ==> Served(order[j], table[order[j]], was[order[j]], env))
    }

    /** Drain the next connection and reap it if that closed it. */
    method ServeNext(order: seq<Remote>, i: nat, env: Env, ghost table: map<Remote, Tcb>,
                     ghost was: map<Remote, E.Endpoint>)
      returns (segs: seq<WireSegment>)
      requires Midway(order, i, env, table, was) && i < |order|
      requires forall i, j :: 0 <= i < j < |order| ==> order[i] != order[j]
      modifies `conns, repr
      ensures Midway(order, i + 1, env, table, was)
      ensures segs == OnTheWire(Drained(was[order[i]], env).1)
    {
      hide Ready, Consistent, Drained, Emitted, Holds, Keeps, OnTheWire, Tcb.Footprint, Apart;
      var k := order[i];
      Within(table[k], repr);
      segs := Serve(conns[k], env, was[k], k, table);
      Reap(k);
    }

    /** Drain what is pending and every connection, in whatever order the table yields them, and reap
        the connections that are closed. `was` names what each connection stands for at the start. */
    method PollTransmit(order: seq<Remote>, env: Env,
                        ghost was: map<Remote, E.Endpoint>) returns (out: seq<WireSegment>)
      requires Owns() && (forall k :: k in order <==> k in conns)
      requires forall i, j :: 0 <= i < j < |order| ==> order[i] != order[j]
      requires was.Keys == conns.Keys && forall k :: k in conns ==> Holds(conns[k], was[k]) && Consistent(was[k])
      modifies this, repr
      ensures Owns() && pending == [] && forall k :: k in conns <==> k in was && Keeps(was[k], env)
      ensures forall k :: k in conns ==> conns[k] == old(conns)[k] && Holds(conns[k], Drained(was[k], env).0)
      ensures out == old(pending) + OnTheWire(Emitted(order, was, env))
    {
      hide Ready, Consistent, Drained, Emitted, Holds, Keeps, OnTheWire, Tcb.Footprint, Apart, Midway;
      ghost var table := conns;
      out := pending;
      pending := [];
      var i := 0;
      Nothing(order, was, env);
      StartsMidway(order, env, table, was);
      while i < |order|
        invariant 0 <= i <= |order| && pending == [] && repr == old(repr) && Midway(order, i, env, table, was)
        invariant out == old(pending) + OnTheWire(Emitted(order[..i], was, env))
      {
        AllConsistent(order, i, env, table, was);
        EmitStep(order, i, was, env);
        var segs := ServeNext(order, i, env, table, was);
        out := out + segs;
        i := i + 1;
      }
      assert order[..|order|] == order;
      EndsServed(order, env, table, was);
    }

    lemma EndsServed(order: seq<Remote>, env: Env, table: map<Remote, Tcb>, was: map<Remote, E.Endpoint>)
      requires Midway(order, |order|, env, table, was)
      requires (forall k :: k in order <==> k in table) && was.Keys == table.Keys
      ensures Owns() && (forall k :: k in conns <==> k in was && Keeps(was[k], env))
      ensures forall k :: k in conns ==> conns[k] == table[k] && Holds(conns[k], Drained(was[k], env).0)
    {
      hide Holds, Consistent, Tcb.Footprint, Drained, Keeps;
    }

    lemma StartsMidway(order: seq<Remote>, env: Env, table: map<Remote, Tcb>, was: map<Remote, E.Endpoint>)
      requires Owns() && table == conns && (forall k :: k in order <==> k in conns)
      requires was.Keys == conns.Keys && forall k :: k in conns ==> Holds(conns[k], was[k]) && Consistent(was[k])
      ensures Midway(order, 0, env, table, was)
    {
      hide Holds, Consistent, Apart, Tcb.Footprint, Drained, Keeps;
    }

    lemma AllConsistent(order: seq<Remote>, i: nat, env: Env, table: map<Remote, Tcb>, was: map<Remote, E.Endpoint>)
      requires Midway(order, i, env, table, was)
      ensures forall k :: k in order ==> k in was && Consistent(was[k])
    {
      hide Holds, Consistent, Apart, Tcb.Footprint, Drained, Keeps;
    }
  }

  lemma Within(t: Tcb, objects: set<object>)
    requires t.Footprint() <= objects
    ensures {t, t.scoreboard} <= objects
  {
    assert t in t.Footprint() && t.scoreboard in t.Footprint();
  }

  lemma EmitStep(order: seq<Remote>, i: nat, was: map<Remote, E.Endpoint>, env: Env)
    requires i < |order| && forall j :: j in order ==> j in was && Consistent(was[j])
    ensures OnTheWire(Emitted(order[..i + 1], was, env))
         == OnTheWire(Emitted(order[..i], was, env)) + OnTheWire(Drained(was[order[i]], env).1)
  {
    hide Consistent, Drained, OnTheWire;
    assert order[..i + 1] == order[..i] + [order[i]];
    EmittedMore(order[..i], order[i], was, env);
    WireConcat(Emitted(order[..i], was, env), Drained(was[order[i]], env).1);
  }

  lemma Nothing(order: seq<Remote>, was: map<Remote, E.Endpoint>, env: Env)
    ensures order[..0] == [] && Emitted([], was, env) == [] && OnTheWire([]) == []
  {}

  /** Drain one connection of the table; the others are untouched. */
  method Serve(t: Tcb, env: Env, ghost e: E.Endpoint, ghost k: Remote, ghost table: map<Remote, Tcb>)
    returns (segs: seq<WireSegment>)
    requires Apart(table) && k in table && table[k] == t && Holds(t, e) && Consistent(e)
    modifies t, t.scoreboard
    ensures Holds(t, Drained(e, env).0) && segs == OnTheWire(Drained(e, env).1)
    ensures t.state.Closed? <==> !Keeps(e, env)
    ensures forall j, x :: j in table && j != k && old(Holds(table[j], x)) ==> Holds(table[j], x)
  {
    hide Ready, Consistent, Drained, OnTheWire;
    segs := Drain(t, env);
    StateOf(t);
    hide Tcb.Valid;
    forall j | j in table && j != k ensures table[j].Footprint() !! {t, t.scoreboard} { Others(table, j, k); }
  }

  lemma StateOf(t: Tcb)
    requires t.Valid()
    ensures t.state == t.at.state
  {}
}
