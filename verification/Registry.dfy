/** The registry of protocol-module connections: one doubly linked list for each module, a slot in the client vector,
    and the bitmaps of active modules (imi_server.c). */
module Registry {
  import opened Octets

  // ---- what a history of registrations leaves ----

  datatype Event<E> = Register(conn: E, m: nat) | Leave(conn: E)

  type Lists<E> = map<nat, seq<E>>

  function Without<E(==)>(s: seq<E>, e: E): (r: seq<E>)
    ensures |r| <= |s|
  {
    if s == [] then []
    else if s[0] == e then Without(s[1..], e) else [s[0]] + Without(s[1..], e)
  }

  lemma {:induction false} WithoutHas<E>(s: seq<E>, e: E, x: E)
    ensures x in Without(s, e) <==> x in s && x != e
  {
    if s != [] {
      WithoutHas(s[1..], e, x);
    }
  }

  ghost predicate Distinct<E>(s: seq<E>) {
    forall i, j | 0 <= i < j < |s| :: s[i] != s[j]
  }

  lemma {:induction false} WithoutAbsent<E>(s: seq<E>, e: E)
    requires e !in s
    ensures Without(s, e) == s
  {
    if s != [] {
      WithoutAbsent(s[1..], e);
    }
  }

  lemma {:induction false} WithoutAt<E>(s: seq<E>, k: nat)
    requires k < |s| && Distinct(s)
    ensures Without(s, s[k]) == s[..k] + s[k + 1..]
  {
    if k == 0 {
      assert s[0] !in s[1..];
      WithoutAbsent(s[1..], s[0]);
    } else {
      WithoutAt(s[1..], k - 1);
      assert s[..k] + s[k + 1..] == [s[0]] + (s[1..][..k - 1] + s[1..][k..]);
    }
  }

  ghost predicate Registered<E>(l: Lists<E>, e: E) {
    exists m :: m in l && e in l[m]
  }

  function List<E>(l: Lists<E>, m: nat): seq<E> {
    if m in l then l[m] else []
  }

  /** A connection joins the end of its module's list, once; a module whose list runs empty disappears. */
  ghost function Step<E>(l: Lists<E>, ev: Event<E>): Lists<E> {
    match ev
    case Register(e, m) => if Registered(l, e) then l else l[m := List(l, m) + [e]]
    case Leave(e) => map m | m in l && Without(l[m], e) != [] :: Without(l[m], e)
  }

  ghost function Run<E>(es: seq<Event<E>>): Lists<E> {
    if es == [] then map[] else Step(Run(es[..|es| - 1]), es[|es| - 1])
  }

  /** The same history seen from one connection: the module it belongs to, and since which event. */
  function Membership<E(==)>(es: seq<Event<E>>, e: E): (r: Option<(nat, nat)>)
    ensures r.Some? ==> r.value.1 < |es| && es[r.value.1] == Register(e, r.value.0)
  {
    if es == [] then None
    else
      var n := |es| - 1;
      var before := Membership(es[..n], e);
      if es[n].conn != e then before
      else if es[n].Leave? then None
      else if before.Some? then before else Some((es[n].m, n))
  }

  /** A run leaves, for every module, exactly the connections that are members of it, each once and in the order in
      which they joined; modules without members have no list. */
  ghost predicate Faithful<E(!new)>(l: Lists<E>, es: seq<Event<E>>) {
    && (forall m, e :: m in l && e in l[m] <==> Member(es, e, m))
    && (forall m | m in l :: l[m] != [] && Joined(l[m], es))
  }

  ghost predicate Member<E>(es: seq<Event<E>>, e: E, m: nat) {
    Membership(es, e).Some? && Membership(es, e).value.0 == m
  }

  /** The members of a list appear in the order of their joining (so no two are the same). */
  ghost predicate Joined<E>(s: seq<E>, es: seq<Event<E>>) {
    && (forall i | 0 <= i < |s| :: Membership(es, s[i]).Some?)
    && (forall i, j | 0 <= i < j < |s| :: Membership(es, s[i]).value.1 < Membership(es, s[j]).value.1)
  }

  lemma {:induction false} WithoutJoined<E>(s: seq<E>, e: E, es: seq<Event<E>>, later: seq<Event<E>>)
    requires Joined(s, es) && forall x | x in s && x != e :: Membership(later, x) == Membership(es, x)
    ensures Joined(Without(s, e), later)
  {
    if s != [] {
      WithoutJoined(s[1..], e, es, later);
      var r := Without(s[1..], e);
      if s[0] != e {
        forall j | 0 <= j < |r|
          ensures Membership(es, s[0]).value.1 < Membership(later, r[j]).value.1
        {
          WithoutHas(s[1..], e, r[j]);
          var k :| 0 <= k < |s[1..]| && s[1..][k] == r[j];
          assert s[1 + k] == r[j];
        }
      }
    }
  }

  lemma LeaveFaithful<E(!new)>(l: Lists<E>, es: seq<Event<E>>, e: E)
    requires Faithful(l, es)
    ensures Faithful(Step(l, Leave(e)), es + [Leave(e)])
  {
    var later := es + [Leave(e)];
    assert later[..|es|] == es;
    var r := Step(l, Leave(e));
    forall x
      ensures Membership(later, x) == if x == e then None else Membership(es, x)
    {
    }
    forall m, x
      ensures m in r && x in r[m] <==> Member(later, x, m)
    {
      assert m in l && x in l[m] <==> Member(es, x, m);
      if m in l {
        WithoutHas(l[m], e, x);
      }
    }
    forall m | m in r
      ensures r[m] != [] && Joined(r[m], later)
    {
      WithoutJoined(l[m], e, es, later);
    }
  }

  lemma RegisterFaithful<E(!new)>(l: Lists<E>, es: seq<Event<E>>, e: E, m: nat)
    requires Faithful(l, es)
    ensures Faithful(Step(l, Register(e, m)), es + [Register(e, m)])
  {
    var later := es + [Register(e, m)];
    assert later[..|es|] == es;
    var r := Step(l, Register(e, m));
    assert Registered(l, e) <==> Membership(es, e).Some? by {
      if Membership(es, e).Some? {
        assert Member(es, e, Membership(es, e).value.0);
      }
    }
    forall x
      ensures Membership(later, x) == if x == e && !Registered(l, e) then Some((m, |es|)) else Membership(es, x)
    {
    }
    forall k, x
      ensures k in r && x in r[k] <==> Member(later, x, k)
    {
      assert k in l && x in l[k] <==> Member(es, x, k);
    }
    forall k | k in r
      ensures r[k] != [] && Joined(r[k], later)
    {
      if k in l {
        assert Joined(l[k], es);
        assert forall i | 0 <= i < |l[k]| :: l[k][i] in l[k];
      }
    }
  }

  /** The registry after any history of registrations and departures. */
  lemma {:induction false} AlwaysFaithful<E(!new)>(es: seq<Event<E>>)
    ensures Faithful(Run(es), es)
    decreases |es|
  {
    if es != [] {
      var n := |es| - 1;
      AlwaysFaithful(es[..n]);
      assert es[..n] + [es[n]] == es;
      match es[n]
      case Register(e, m) => RegisterFaithful(Run(es[..n]), es[..n], e, m);
      case Leave(e) => LeaveFaithful(Run(es[..n]), es[..n], e);
    }
  }

  lemma LeaveUnknown<E>(l: Lists<E>, e: E)
    requires !Registered(l, e) && forall m | m in l :: l[m] != []
    ensures Step(l, Leave(e)) == l
  {
    forall n | n in l
      ensures Without(l[n], e) == l[n]
    {
      WithoutAbsent(l[n], e);
    }
  }

  /** A list that has run empty disappears. */
  function Pruned<E>(l: Lists<E>, m: nat): Lists<E> {
    if m in l && l[m] == [] then l - {m} else l
  }

  ghost predicate NoneEmpty<E>(l: Lists<E>) {
    forall m | m in l :: l[m] != []
  }

  lemma Overwritten<E>(l: Lists<E>, m: nat, first: seq<E>, second: seq<E>)
    ensures l[m := first][m := second] == l[m := second]
  {
  }

  lemma LeavePruned<E>(l: Lists<E>, e: E, m: nat, k: nat)
    requires NoneEmpty(l) && m in l && Distinct(l[m]) && k < |l[m]| && l[m][k] == e
    requires forall n | n in l && n != m :: e !in l[n]
    ensures Step(l, Leave(e)) == Pruned(l[m := l[m][..k] + l[m][k + 1..]], m) && NoneEmpty(Step(l, Leave(e)))
  {
    WithoutAt(l[m], k);
    forall n | n in l && n != m
      ensures Without(l[n], e) == l[n]
    {
      WithoutAbsent(l[n], e);
    }
  }

  // ---- the linked lists ----

  /** imi_server_entry: a connection, linked into its client's list once it is registered. */
  class Entry {
    var next: Entry?
    var prev: Entry?
    var isc: Client?

    constructor ()
      ensures next == null && prev == null && isc == null
    {
      next, prev, isc := null, null, null;
    }
  }

  /** imi_server_client: the connections of one module. */
  class Client {
    const moduleId: nat
    var head: Entry?
    var tail: Entry?
    ghost var entries: seq<Entry>
    ghost var cells: set<Entry>

    /** A well-formed doubly linked list of exactly `entries`. */
    ghost predicate Linked()
      reads this, cells
    {
      && (forall k | 0 <= k < |entries| :: entries[k] in cells)
      && (entries == [] ==> head == null && tail == null)
      && (entries != [] ==> head == entries[0] && tail == entries[|entries| - 1])
      && (entries != [] ==> head.prev == null && tail.next == null)
      && (forall e | e in cells :: e.isc == this)
      && (forall i, j | 0 <= i < j < |entries| && j == i + 1 ::
            entries[i].next == entries[j] && entries[j].prev == entries[i])
      && Distinct(entries)
    }

    constructor (moduleId: nat)
      ensures this.moduleId == moduleId && entries == [] && cells == {} && Linked()
    {
      this.moduleId := moduleId;
      head, tail, entries, cells := null, null, [], {};
    }

    /** The linking part of imi_server_client_connect. */
    method Append(e: Entry)
      requires Linked() && e.isc == null && e.next == null
      modifies this, e, cells
      ensures Linked() && entries == old(entries) + [e] && cells == old(cells) + {e}
    {
      e.prev := tail;
      if head == null {
        head := e;
      } else {
        tail.next := e;
      }
      tail := e;
      e.isc := this;
      entries := entries + [e];
      cells := cells + {e};
    }

    /** imi_server_entry_free for a registered entry. */
    method Remove(e: Entry, ghost k: nat)
      requires Linked() && k < |entries| && entries[k] == e
      modifies this, cells
      ensures Linked() && entries == old(entries[..k] + entries[k + 1..]) && cells == old(cells) - {e}
      ensures head == null <==> entries == []
    {
      ghost var was := entries;
      assert if k > 0 then e.prev == was[k - 1] else e.prev == null;
      assert if k + 1 < |was| then e.next == was[k + 1] else e.next == null;
      if e.prev != null {
        e.prev.next := e.next;
      } else {
        head := e.next;
      }
      if e.next != null {
        e.next.prev := e.prev;
      } else {
        tail := e.prev;
      }
      entries := entries[..k] + entries[k + 1..];
      cells := cells - {e};
      assert forall i | 0 <= i < k :: entries[i] == was[i];
      assert forall i | k <= i < |entries| :: entries[i] == was[i + 1];
    }
  }

  // ---- the server ----

  /** The module bitmaps of a virtual router: what it may run, and what is active. */
  class Router {
    const config: set<nat>
    var active: set<nat>

    constructor (config: set<nat>)
      ensures this.config == config && active == {}
    {
      this.config := config;
      active := {};
    }
  }

  class Server {
    var slots: map<nat, Client>
    var active: set<nat>
    const routers: seq<Router>
    const privileged: Router
    /** Connections that have not registered yet. */
    ghost var idle: set<Entry>
    ghost var Repr: set<object>

    /** Every slot holds a linked list of its module's connections, none of them empty, the lists are apart, the global
        bitmap marks the slots in use, and the privileged router is active in exactly those it may run. */
    ghost predicate Valid()
      reads this, Repr
    {
      Linked() && NoneEmpty(Contents())
    }

    ghost predicate Linked()
      reads this, Repr
    {
      this in Repr && Slots() && Idle() && Bitmaps()
    }

    ghost predicate Slots()
      reads this, Repr
    {
      && (forall m | m in slots ::
            slots[m] in Repr && slots[m].cells <= Repr && slots[m].Linked() && slots[m].moduleId == m)
      && (forall m, n | m in slots && n in slots && m != n :: slots[m].cells !! slots[n].cells)
    }

    ghost predicate Idle()
      reads this, Repr
    {
      && (forall e | e in idle :: e in Repr && e.isc == null && e.next == null && e.prev == null)
    }

    ghost predicate Bitmaps()
      reads this, Repr
    {
      && (forall r | r in routers :: r in Repr)
      && active == slots.Keys
      && privileged in routers && privileged.active == active * privileged.config
    }

    ghost function Contents(): Lists<Entry>
      reads this, Repr
      requires Linked()
    {
      map m | m in slots :: slots[m].entries
    }

    constructor (routers: seq<Router>, privileged: Router)
      requires privileged in routers && privileged.active == {}
      ensures Valid() && Contents() == map[] && idle == {}
      ensures this.routers == routers && this.privileged == privileged
      ensures fresh(Repr - (set r: object | r in routers))
    {
      this.routers := routers;
      this.privileged := privileged;
      slots, active, idle := map[], {}, {};
      Repr := (set r: object | r in routers) + {this};
    }

    /** imi_server_pm_set */
    method PmSet(m: nat)
      modifies this`active, routers
      ensures active == old(active) + {m}
      ensures forall r | r in routers :: r.active == old(r.active) + ({m} * r.config)
    {
      active := active + {m};
      for i := 0 to |routers|
        invariant active == old(active) + {m}
        invariant forall r | r in routers[..i] :: r.active == old(r.active) + ({m} * r.config)
        invariant forall r | r in routers && r !in routers[..i] :: r.active == old(r.active)
      {
        if m in routers[i].config {
          routers[i].active := routers[i].active + {m};
        }
      }
    }

    /** imi_server_pm_unset */
    method PmUnset(m: nat)
      modifies this`active, routers
      ensures active == old(active) - {m}
      ensures forall r | r in routers :: r.active == old(r.active) - {m}
    {
      active := active - {m};
      for i := 0 to |routers|
        invariant active == old(active) - {m}
        invariant forall r | r in routers[..i] :: r.active == old(r.active) - {m}
        invariant forall r | r in routers && r !in routers[..i] :: r.active == old(r.active)
      {
        routers[i].active := routers[i].active - {m};
      }
    }

    lemma ContentsAre(l: Lists<Entry>)
      requires Linked() && l.Keys == slots.Keys && forall m | m in slots :: slots[m].entries == l[m]
      ensures Contents() == l
    {
    }

    /** A connection the server knows: waiting to register, or in the list it points to. */
    ghost predicate Known(e: Entry)
      reads this, Repr
      requires Linked()
    {
      e in idle || Registered(Contents(), e)
    }

    lemma RegisteredIs(e: Entry)
      requires Linked() && Known(e)
      ensures e in Repr && (e.isc == null <==> e in idle) && (e.isc == null <==> !Registered(Contents(), e))
      ensures e.isc != null ==>
                e.isc in Repr && e.isc.moduleId in slots && slots[e.isc.moduleId] == e.isc && e in e.isc.entries
    {
    }

    /** imi_server_connect: a new connection, not yet registered. */
    method Accept() returns (e: Entry)
      requires Valid()
      modifies this
      ensures Valid() && fresh(e) && Repr == old(Repr) + {e}
      ensures idle == old(idle) + {e} && Contents() == old(Contents())
    {
      ghost var l := Contents();
      e := new Entry();
      idle := idle + {e};
      Repr := Repr + {e};
      ContentsAre(l);
    }

    /** imi_server_client_new */
    method ClientNew(m: nat)
      requires Linked() && m !in slots
      modifies this, routers
      ensures Linked() && fresh(Repr - old(Repr)) && old(Repr) <= Repr && idle == old(idle)
      ensures m in slots && fresh(slots[m]) && slots == old(slots)[m := slots[m]] && slots[m].entries == []
    {
      var c := new Client(m);
      slots := slots[m := c];
      Repr := Repr + {c};
      PmSet(m);
    }

    /** imi_server_client_free */
    method ClientFree(m: nat)
      requires Linked() && m in Contents()
      modifies this, routers
      ensures Linked() && Repr == old(Repr) && idle == old(idle) && slots == old(slots) - {m}
    {
      PmUnset(m);
      slots := slots - {m};
    }

    /** Only the module's own list changes. */
    method AppendTo(c: Client, m: nat, e: Entry)
      requires Linked() && m in slots && slots[m] == c && e in idle
      modifies this`idle, c, e, c.cells
      ensures Linked() && idle == old(idle) - {e}
      ensures c.entries == old(c.entries) + [e]
      ensures forall n | n in slots && n != m :: slots[n].entries == old(slots[n].entries)
    {
      assert forall n | n in slots && n != m :: slots[n] != c && slots[n].cells !! c.cells && e !in slots[n].cells;
      idle := idle - {e};
      c.Append(e);
      assert forall n | n in slots && n != m :: slots[n].Linked() && slots[n].cells == old(slots[n].cells);
    }

    method AttachTo(c: Client, e: Entry, m: nat)
      requires Linked() && e in idle && m in slots && slots[m] == c
      modifies this`idle, c, e, c.cells
      ensures Linked() && idle == old(idle) - {e}
      ensures Contents() == old(Contents())[m := old(c.entries) + [e]]
    {
      hide Slots, Idle, Bitmaps;
      ghost var was, es := Contents(), c.entries;
      AppendTo(c, m, e);
      ContentsAre(was[m := es + [e]]);
    }

    method Attach(e: Entry, m: nat)
      requires Linked() && e in idle && m in Contents()
      modifies Repr
      ensures Linked() && Repr == old(Repr) && idle == old(idle) - {e}
      ensures Contents() == old(Contents())[m := old(Contents()[m]) + [e]]
    {
      AttachTo(slots[m], e, m);
    }

    method RemoveFrom(c: Client, m: nat, e: Entry, ghost k: nat)
      requires Linked() && m in slots && slots[m] == c && k < |c.entries| && c.entries[k] == e
      modifies c, c.cells
      ensures Linked() && idle == old(idle)
      ensures c.entries == old(c.entries[..k] + c.entries[k + 1..])
      ensures forall n | n in slots && n != m :: slots[n].entries == old(slots[n].entries)
    {
      assert forall n | n in slots && n != m :: slots[n] != c && slots[n].cells !! c.cells;
      c.Remove(e, k);
      assert forall n | n in slots && n != m :: slots[n].Linked() && slots[n].cells == old(slots[n].cells);
    }

    method Detach(e: Entry, m: nat, ghost k: nat)
      requires Linked() && m in slots && k < |slots[m].entries| && slots[m].entries[k] == e
      modifies Repr
      ensures Linked() && Repr == old(Repr) && idle == old(idle)
      ensures Contents() == old(Contents())[m := old(Contents()[m][..k] + Contents()[m][k + 1..])]
    {
      ghost var was := Contents();
      RemoveFrom(slots[m], m, e, k);
      ContentsAre(was[m := was[m][..k] + was[m][k + 1..]]);
    }

    /** The module's client is made if it is not there. */
    method Reserve(m: nat)
      requires Linked()
      modifies this, routers
      ensures Linked() && fresh(Repr - old(Repr)) && old(Repr) <= Repr && idle == old(idle)
      ensures Contents() == old(Contents())[m := List(old(Contents()), m)]
    {
      ghost var was := Contents();
      if m !in slots {
        ClientNew(m);
      }
      ContentsAre(was[m := List(was, m)]);
    }

    method Join(e: Entry, m: nat)
      requires Linked() && e in idle
      modifies Repr
      ensures Linked() && fresh(Repr - old(Repr)) && idle == old(idle) - {e}
      ensures Contents() == old(Contents())[m := List(old(Contents()), m) + [e]]
    {
      ghost var was := Contents();
      Reserve(m);
      ghost var l := Contents();
      assert m in l && l[m] == List(was, m);
      Attach(e, m);
      Overwritten(was, m, l[m], l[m] + [e]);
    }

    /** A client whose last connection has left is freed. */
    method Prune(m: nat)
      requires Linked() && m in Contents()
      modifies this, routers
      ensures Linked() && Repr == old(Repr) && idle == old(idle) && Contents() == Pruned(old(Contents()), m)
    {
      ghost var was := Contents();
      if slots[m].head == null {
        ClientFree(m);
        ContentsAre(was - {m});
      }
    }

    method Part(e: Entry, m: nat, ghost k: nat)
      requires Linked() && m in slots && k < |slots[m].entries| && slots[m].entries[k] == e
      modifies Repr
      ensures Linked() && Repr == old(Repr) && idle == old(idle)
      ensures Contents() == Pruned(old(Contents())[m := old(Contents()[m][..k] + Contents()[m][k + 1..])], m)
    {
      Detach(e, m, k);
      Prune(m);
    }

    /** imi_server_client_connect; ok is false for a connection that is registered already. Requests without a module
        (id 0) have been refused when they were read. */
    method ClientConnect(e: Entry, m: nat) returns (ok: bool)
      requires Valid() && Known(e) && m > 0
      modifies Repr
      ensures Valid() && fresh(Repr - old(Repr))
      ensures ok == !Registered(old(Contents()), e) && idle == old(idle) - {e}
      ensures Contents() == Step(old(Contents()), Register(e, m))
    {
      RegisteredIs(e);
      if e.isc != null {
        return false;
      }
      Join(e, m);
      ok := true;
    }

    /** A connection that never registered. */
    ghost method Withdraw(e: Entry)
      requires Linked() && e in idle
      modifies this`idle
      ensures Linked() && idle == old(idle) - {e} && Contents() == old(Contents())
    {
      ghost var l := Contents();
      idle := idle - {e};
      ContentsAre(l);
    }

    /** imi_server_disconnect */
    method Disconnect(e: Entry)
      requires Valid() && Known(e)
      modifies Repr
      ensures Valid() && Repr == old(Repr) && idle == old(idle) - {e}
      ensures Contents() == Step(old(Contents()), Leave(e))
    {
      RegisteredIs(e);
      if e.isc != null {
        ghost var k :| 0 <= k < |e.isc.entries| && e.isc.entries[k] == e;
        LeaveIs(e, e.isc.moduleId, k);
        Part(e, e.isc.moduleId, k);
      } else {
        ghost var l := Contents();
        LeaveUnknown(l, e);
        Withdraw(e);
      }
    }

    lemma LeaveIs(e: Entry, m: nat, k: nat)
      requires Valid() && m in slots && k < |slots[m].entries| && slots[m].entries[k] == e
      ensures Step(Contents(), Leave(e)) == Pruned(Contents()[m := Contents()[m][..k] + Contents()[m][k + 1..]], m)
      ensures NoneEmpty(Step(Contents(), Leave(e)))
    {
      LeavePruned(Contents(), e, m, k);
    }
  }
}
