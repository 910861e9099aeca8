/** Handing out terminal lines to shell sessions (imi_server.c, imi_line.c), for one virtual router. */
module LineAllocator {
  import opened Octets

  const CONSOLE: nat := 0
  const AUX: nat := 1
  const VTY: nat := 2
  const TYPES: nat := 3

  /** A slot of a line vector: a hole, or a line with its UP flag. */
  type Vector = seq<Option<bool>>

  /** A connected shell: whether it got a line, and the line type and index it remembers. */
  datatype Session = Session(up: bool, lineType: nat, index: nat)

  /** The three line vectors, and the connected sessions by connection. */
  datatype State = State(lines: seq<Vector>, sessions: map<nat, Session>)

  datatype Event =
    | Connect(conn: nat)
    | ContextSet(conn: nat, key: nat)
    | Disconnect(conn: nat)
    | AddLine(lineType: nat, index: nat)

  predicate WellFormed(s: State) {
    |s.lines| == TYPES
  }

  /** The first line that is not in use, or the length of the vector. */
  function FirstFree(v: Vector, i: nat): (r: nat)
    requires i <= |v|
    ensures i <= r <= |v| && (forall k | i <= k < r :: v[k] != Some(false)) && (r < |v| ==> v[r] == Some(false))
    decreases |v| - i
  {
    if i == |v| || v[i] == Some(false) then i else FirstFree(v, i + 1)
  }

  /** The vector searched for a key: consoles for the console key, virtual terminals for any other. */
  function VectorFor(key: nat): nat {
    if key == CONSOLE then CONSOLE else VTY
  }

  function SetUp(lines: seq<Vector>, t: nat, i: nat, up: bool): (r: seq<Vector>)
    ensures |r| == |lines|
    ensures forall u: nat, j: nat :: HasLine(r, u, j) <==> HasLine(lines, u, j)
    ensures forall u: nat, j: nat | HasLine(r, u, j) && HasLine(lines, u, j) ::
              r[u][j] == if u == t && j == i then Some(up) else lines[u][j]
  {
    if HasLine(lines, t, i) then lines[t := lines[t][i := Some(up)]] else lines
  }

  predicate HasLine(lines: seq<Vector>, t: nat, i: nat) {
    t < |lines| && i < |lines[t]| && lines[t][i].Some?
  }

  predicate IsUp(s: State, t: nat, i: nat) {
    HasLine(s.lines, t, i) && s.lines[t][i] == Some(true)
  }

  predicate Holds(s: State, conn: nat, t: nat, i: nat) {
    conn in s.sessions && s.sessions[conn] == Session(true, t, i)
  }

  /** imi_server_context_set: takes the first free line. A session that has one already, or finds none, is told so and
      its connection is closed. The session remembers the key as its line's type. */
  function SetContext(s: State, conn: nat, key: nat): State
    requires WellFormed(s) && conn in s.sessions
  {
    var t := VectorFor(key);
    var i := FirstFree(s.lines[t], 0);
    if s.sessions[conn].up || i == |s.lines[t]| then Close(s, conn)
    else State(SetUp(s.lines, t, i, true), s.sessions[conn := Session(true, key, i)])
  }

  /** imi_server_disconnect: a session with a line gives it back. */
  function Close(s: State, conn: nat): State
    requires conn in s.sessions
  {
    var se := s.sessions[conn];
    State(if se.up then SetUp(s.lines, se.lineType, se.index, false) else s.lines, s.sessions - {conn})
  }

  /** imi_line_get: an empty slot receives a line that is not in use, the vector growing up to it. */
  function Added(v: Vector, i: nat): (r: Vector)
    ensures |r| == if i < |v| then |v| else i + 1
    ensures forall k | 0 <= k < |r| ::
              r[k] == if k < |v| && v[k].Some? then v[k] else if k == i then Some(false) else None
  {
    seq(if i < |v| then |v| else i + 1,
        k requires 0 <= k => if k < |v| && v[k].Some? then v[k] else if k == i then Some(false) else None)
  }

  /** A request on a connection that is not there has no effect. */
  function Step(s: State, e: Event): State
    requires WellFormed(s)
  {
    match e
    case Connect(conn) => if conn in s.sessions then s else s.(sessions := s.sessions[conn := Session(false, 0, 0)])
    case ContextSet(conn, key) => if conn in s.sessions then SetContext(s, conn, key) else s
    case Disconnect(conn) => if conn in s.sessions then Close(s, conn) else s
    case AddLine(t, i) => if t < TYPES then s.(lines := s.lines[t := Added(s.lines[t], i)]) else s
  }

  function Run(s: State, es: seq<Event>): (r: State)
    requires WellFormed(s)
    ensures WellFormed(r)
    decreases |es|
  {
    if es == [] then s else Run(Step(s, es[0]), es[1..])
  }

  /** The lines of r are those of s but for one slot, which holds x in r. */
  ghost predicate OneSlot(s: State, r: State, t: nat, i: nat, x: Option<bool>) {
    && |r.lines| == |s.lines| == 3 && t < 3 && i < |s.lines[t]|
    && r.lines[t] == s.lines[t][i := x]
    && forall u: nat | u < 3 && u != t :: r.lines[u] == s.lines[u]
  }

  /** A session that leaves is forgotten, the other sessions stay as they are. If it had a line, the slot it remembers
      is not in use any more, unless there is none or it is a hole; no other line changes. */
  lemma Leaving(s: State, conn: nat)
    requires WellFormed(s) && conn in s.sessions
    ensures var r, se := Step(s, Disconnect(conn)), s.sessions[conn];
            && conn !in r.sessions && (forall c | c in s.sessions && c != conn :: c in r.sessions)
            && (forall c | c in r.sessions :: c in s.sessions && r.sessions[c] == s.sessions[c])
            && if se.up && se.lineType < 3 && se.index < |s.lines[se.lineType]|
                  && s.lines[se.lineType][se.index] != None
               then OneSlot(s, r, se.lineType, se.index, Some(false))
               else r.lines == s.lines
  {
  }

  /** A session asking for a line under a key gets the first line not in use among the consoles (key 0) or among the
      virtual terminals (any other key): every slot in front of it is in use or a hole. The line is in use then, the
      session remembers the key and the slot, and nothing else changes. A session that has a line, or finds none, is
      closed like one that leaves. */
  lemma FirstFreeTaken(s: State, conn: nat, key: nat)
    requires WellFormed(s) && conn in s.sessions
    ensures var r, t := Step(s, ContextSet(conn, key)), if key == 0 then 0 else 2;
            if s.sessions[conn].up || forall k | 0 <= k < |s.lines[t]| :: s.lines[t][k] != Some(false)
            then r == Step(s, Disconnect(conn))
            else exists i: nat ::
                   && i < |s.lines[t]| && s.lines[t][i] == Some(false)
                   && (forall k | 0 <= k < i :: s.lines[t][k] == None || s.lines[t][k] == Some(true))
                   && OneSlot(s, r, t, i, Some(true))
                   && r.sessions == s.sessions[conn := Session(true, key, i)]
  {
    var t := VectorFor(key);
    var i := FirstFree(s.lines[t], 0);
    var r := Step(s, ContextSet(conn, key));
    if !s.sessions[conn].up && i < |s.lines[t]| {
      forall k | 0 <= k < i
        ensures s.lines[t][k] == None || s.lines[t][k] == Some(true)
      {
        assert s.lines[t][k] != Some(false);
        if s.lines[t][k].Some? {
          assert s.lines[t][k].value;
        }
      }
      assert OneSlot(s, r, t, i, Some(true));
    }
  }

  /** A new connection has no line yet, and one that is there stays as it is. A line that is asked for is created, not
      in use, if its slot is empty: the vector grows to hold it, with holes where there was nothing. */
  lemma Joining(s: State, conn: nat, t: nat, i: nat)
    requires WellFormed(s) && t < 3
    ensures var r := Step(s, Connect(conn));
            r.lines == s.lines && conn in r.sessions
            && (conn in s.sessions ==> r == s)
            && (conn !in s.sessions ==> !r.sessions[conn].up && r.sessions - {conn} == s.sessions)
    ensures var r := Step(s, AddLine(t, i));
            && r.sessions == s.sessions && |r.lines| == 3
            && (forall u: nat | u < 3 && u != t :: r.lines[u] == s.lines[u])
            && (i < |s.lines[t]| && s.lines[t][i] != None ==> r == s)
            && (i < |s.lines[t]| && s.lines[t][i] == None ==> OneSlot(s, r, t, i, Some(false)))
            && (i >= |s.lines[t]| ==>
                  r.lines[t] == s.lines[t] + seq(i - |s.lines[t]|, _ => None) + [Some(false)])
  {
    if i < |s.lines[t]| && s.lines[t][i] != None {
      assert Added(s.lines[t], i) == s.lines[t];
      assert s.lines[t := s.lines[t]] == s.lines;
    }
  }

  /** A line is in use exactly when some live session holds it, and no two live sessions hold the same one. */
  ghost predicate Exclusive(s: State) {
    && WellFormed(s)
    && (forall t: nat, i: nat :: IsUp(s, t, i) <==> exists c :: Holds(s, c, t, i))
    && (forall a: nat, b: nat, t: nat, i: nat | Holds(s, a, t, i) && Holds(s, b, t, i) :: a == b)
  }

  /** The event makes a session take a line under a key that is neither console nor virtual terminal. */
  predicate TakesOther(s: State, e: Event)
    requires WellFormed(s)
  {
    e.ContextSet? && e.key != CONSOLE && e.key != VTY && e.conn in s.sessions && !s.sessions[e.conn].up
    && FirstFree(s.lines[VTY], 0) < |s.lines[VTY]|
  }

  /** Some event of the run does. */
  predicate OnceTakesOther(s: State, es: seq<Event>)
    requires WellFormed(s)
    decreases |es|
  {
    es != [] && (TakesOther(s, es[0]) || OnceTakesOther(Step(s, es[0]), es[1..]))
  }

  lemma ConnectKeeps(s: State, conn: nat)
    requires Exclusive(s) && conn !in s.sessions
    ensures Exclusive(Step(s, Connect(conn)))
  {
    var r := Step(s, Connect(conn));
    forall t: nat, i: nat
      ensures IsUp(r, t, i) <==> exists c :: Holds(r, c, t, i)
    {
      assert IsUp(r, t, i) <==> IsUp(s, t, i);
      if IsUp(s, t, i) {
        var c :| Holds(s, c, t, i);
        assert Holds(r, c, t, i);
      }
      if c :| Holds(r, c, t, i) {
        assert Holds(s, c, t, i);
      }
    }
    forall a: nat, b: nat, t: nat, i: nat | Holds(r, a, t, i) && Holds(r, b, t, i)
      ensures a == b
    {
      assert Holds(s, a, t, i) && Holds(s, b, t, i);
    }
  }

  lemma CloseKeeps(s: State, conn: nat)
    requires Exclusive(s) && conn in s.sessions
    ensures Exclusive(Close(s, conn))
  {
    var r := Close(s, conn);
    forall a: nat, t: nat, i: nat
      ensures Holds(r, a, t, i) <==> a != conn && Holds(s, a, t, i)
    {
    }
    forall t: nat, i: nat
      ensures IsUp(r, t, i) <==> exists c :: Holds(r, c, t, i)
    {
      assert IsUp(r, t, i) <==> IsUp(s, t, i) && !Holds(s, conn, t, i);
      if IsUp(r, t, i) {
        var c :| Holds(s, c, t, i);
        assert Holds(r, c, t, i);
      }
    }
  }

  lemma TakeKeeps(s: State, conn: nat, key: nat)
    requires Exclusive(s) && conn in s.sessions && !s.sessions[conn].up && (key == CONSOLE || key == VTY)
    requires FirstFree(s.lines[key], 0) < |s.lines[key]|
    ensures Exclusive(SetContext(s, conn, key))
  {
    var r := SetContext(s, conn, key);
    var n := FirstFree(s.lines[key], 0);
    assert !IsUp(s, key, n);
    assert forall c: nat :: !Holds(s, c, key, n);
    forall a: nat, t: nat, i: nat
      ensures Holds(r, a, t, i) <==> if a == conn then t == key && i == n else Holds(s, a, t, i)
    {
    }
    forall t: nat, i: nat
      ensures IsUp(r, t, i) <==> exists c :: Holds(r, c, t, i)
    {
      assert IsUp(r, t, i) <==> IsUp(s, t, i) || (t == key && i == n);
      if IsUp(s, t, i) {
        var c :| Holds(s, c, t, i);
        assert Holds(r, c, t, i);
      }
      if t == key && i == n {
        assert Holds(r, conn, t, i);
      }
      if c :| Holds(r, c, t, i) && c != conn {
        assert Holds(s, c, t, i);
      }
    }
    forall a: nat, b: nat, t: nat, i: nat | Holds(r, a, t, i) && Holds(r, b, t, i)
      ensures a == b
    {
      if a != conn && b != conn {
        assert Holds(s, a, t, i) && Holds(s, b, t, i);
      }
    }
  }

  lemma AddKeeps(s: State, t0: nat, i0: nat)
    requires Exclusive(s) && t0 < TYPES
    ensures Exclusive(Step(s, AddLine(t0, i0)))
  {
    var r := Step(s, AddLine(t0, i0));
    forall t: nat, i: nat
      ensures IsUp(r, t, i) <==> exists c :: Holds(r, c, t, i)
    {
      assert IsUp(r, t, i) <==> IsUp(s, t, i);
      if IsUp(s, t, i) {
        var c :| Holds(s, c, t, i);
        assert Holds(r, c, t, i);
      }
      if c :| Holds(r, c, t, i) {
        assert Holds(s, c, t, i);
      }
    }
    forall a: nat, b: nat, t: nat, i: nat | Holds(r, a, t, i) && Holds(r, b, t, i)
      ensures a == b
    {
      assert Holds(s, a, t, i) && Holds(s, b, t, i);
    }
  }

  lemma StepKeeps(s: State, e: Event)
    requires Exclusive(s) && !TakesOther(s, e)
    ensures Exclusive(Step(s, e))
  {
    match e
    case Connect(conn) =>
      if conn !in s.sessions {
        ConnectKeeps(s, conn);
      }
    case ContextSet(conn, key) =>
      if conn in s.sessions {
        var t := VectorFor(key);
        if s.sessions[conn].up || FirstFree(s.lines[t], 0) == |s.lines[t]| {
          CloseKeeps(s, conn);
        } else {
          TakeKeeps(s, conn, key);
        }
      }
    case Disconnect(conn) =>
      if conn in s.sessions {
        CloseKeeps(s, conn);
      }
    case AddLine(t, i) =>
      if t < TYPES {
        AddKeeps(s, t, i);
      }
  }

  /** A virtual terminal in use by nobody. */
  ghost predicate Leaked(s: State, i: nat) {
    WellFormed(s) && IsUp(s, VTY, i) && forall c: nat :: !Holds(s, c, VTY, i)
  }

  lemma TakingLeaks(s: State, e: Event) returns (i: nat)
    requires Exclusive(s) && TakesOther(s, e)
    ensures Leaked(Step(s, e), i)
  {
    i := FirstFree(s.lines[VTY], 0);
    var r := Step(s, e);
    assert !IsUp(s, VTY, i);
    forall c: nat
      ensures !Holds(r, c, VTY, i)
    {
      assert Holds(r, c, VTY, i) ==> Holds(s, c, VTY, i);
    }
  }

  /** Such a line is never given to a session nor freed. */
  lemma LeakStays(s: State, e: Event, i: nat)
    requires Leaked(s, i)
    ensures Leaked(Step(s, e), i)
  {
    var r := Step(s, e);
    if !e.AddLine? {
      assert !Holds(s, e.conn, VTY, i);
    }
    forall c: nat
      ensures !Holds(r, c, VTY, i)
    {
      assert !Holds(s, c, VTY, i);
    }
  }

  lemma {:induction false} LeakRemains(s: State, es: seq<Event>, i: nat)
    requires Leaked(s, i)
    ensures Leaked(Run(s, es), i)
    decreases |es|
  {
    if es != [] {
      LeakStays(s, es[0], i);
      LeakRemains(Step(s, es[0]), es[1..], i);
    }
  }

  /** In any run, lines and live sessions correspond one to one at the end exactly if no session ever took a line under
      a key that is neither console nor virtual terminal. */
  lemma {:induction false} ExclusiveUnlessOther(s: State, es: seq<Event>)
    requires Exclusive(s)
    ensures Exclusive(Run(s, es)) <==> !OnceTakesOther(s, es)
    decreases |es|
  {
    if es != [] {
      if TakesOther(s, es[0]) {
        var i := TakingLeaks(s, es[0]);
        LeakRemains(Step(s, es[0]), es[1..], i);
        assert IsUp(Run(s, es), VTY, i);
      } else {
        StepKeeps(s, es[0]);
        ExclusiveUnlessOther(Step(s, es[0]), es[1..]);
      }
    }
  }

  /** A session that takes a line and leaves gives it back exactly when its key was the console's or the virtual
      terminals': any other key takes a virtual terminal but is remembered as the line's type, so the terminal stays
      in use. */
  lemma GivenBack(s: State, conn: nat, key: nat)
    requires Exclusive(s) && conn !in s.sessions
    requires FirstFree(s.lines[VectorFor(key)], 0) < |s.lines[VectorFor(key)]|
    ensures var r := Run(s, [Connect(conn), ContextSet(conn, key), Disconnect(conn)]);
            r.sessions == s.sessions && (r.lines == s.lines <==> key == CONSOLE || key == VTY)
  {
    var s1 := Step(s, Connect(conn));
    var s2 := Step(s1, ContextSet(conn, key));
    var r := Step(s2, Disconnect(conn));
    RunThree(s, Connect(conn), ContextSet(conn, key), Disconnect(conn));
    var t := VectorFor(key);
    var n := FirstFree(s.lines[t], 0);
    assert r.sessions == s.sessions;
    if key == CONSOLE || key == VTY {
      assert r.lines[t] == s.lines[t];
      assert r.lines == s.lines;
    } else {
      assert IsUp(r, VTY, n) && !IsUp(s, VTY, n);
    }
  }

  lemma RunThree(s: State, a: Event, b: Event, c: Event)
    requires WellFormed(s)
    ensures Run(s, [a, b, c]) == Step(Step(Step(s, a), b), c)
  {
    var es := [a, b, c];
    assert es[1..] == [b, c] && [b, c][1..] == [c] && [c][1..] == [];
    assert Run(Step(Step(s, a), b), [c]) == Step(Step(Step(s, a), b), c);
  }

  /** The shell side of the configuration server. */
  class Master {
    var lines: seq<Vector>
    var sessions: map<nat, Session>

    ghost predicate Valid()
      reads this
    {
      |lines| == TYPES
    }

    ghost function Now(): State
      reads this
    {
      State(lines, sessions)
    }

    /** No sessions, and as many unused lines of each type as are configured at start-up. */
    constructor (console: nat, aux: nat, vty: nat)
      ensures Valid() && Exclusive(Now()) && sessions == map[]
      ensures |lines[CONSOLE]| == console && |lines[AUX]| == aux && |lines[VTY]| == vty
      ensures forall t: nat, i: nat | t < TYPES && i < |lines[t]| :: lines[t][i] == Some(false)
    {
      lines := [seq(console, _ => Some(false)), seq(aux, _ => Some(false)), seq(vty, _ => Some(false))];
      sessions := map[];
    }

    method AcceptSession(conn: nat)
      requires Valid()
      modifies this
      ensures Valid() && Now() == Step(old(Now()), Connect(conn))
    {
      if conn !in sessions {
        sessions := sessions[conn := Session(false, 0, 0)];
      }
    }

    /** ok is false when the request is refused and the connection closed. */
    method SetSessionContext(conn: nat, key: nat) returns (ok: bool)
      requires Valid() && conn in sessions
      modifies this
      ensures Valid() && Now() == Step(old(Now()), ContextSet(conn, key)) && ok == (conn in sessions)
    {
      if sessions[conn].up {
        CloseSession(conn);
        return false;
      }
      var t := if key == CONSOLE then CONSOLE else VTY;
      var i := 0;
      while i < |lines[t]|
        invariant i <= |lines[t]| && FirstFree(lines[t], 0) == FirstFree(lines[t], i)
      {
        if lines[t][i] == Some(false) {
          lines := lines[t := lines[t][i := Some(true)]];
          sessions := sessions[conn := Session(true, key, i)];
          return true;
        }
        i := i + 1;
      }
      CloseSession(conn);
      ok := false;
    }

    method CloseSession(conn: nat)
      requires Valid() && conn in sessions
      modifies this
      ensures Valid() && Now() == Step(old(Now()), Disconnect(conn))
    {
      var se := sessions[conn];
      if se.up && se.lineType < |lines| && se.index < |lines[se.lineType]| && lines[se.lineType][se.index].Some? {
        lines := lines[se.lineType := lines[se.lineType][se.index := Some(false)]];
      }
      sessions := sessions - {conn};
    }

    /** imi_line_get */
    method GetLine(t: nat, index: nat)
      requires Valid() && t < TYPES
      modifies this`lines
      ensures Valid() && Now() == Step(old(Now()), AddLine(t, index))
    {
      var v := lines[t];
      while |v| <= index
        invariant |lines[t]| <= |v|
        invariant |v| <= index + 1 || |v| == |lines[t]|
        invariant forall k | 0 <= k < |v| :: v[k] == if k < |lines[t]| then lines[t][k] else None
        decreases index + 1 - |v|
      {
        v := v + [None];
      }
      if v[index] == None {
        v := v[index := Some(false)];
      }
      assert v == Added(lines[t], index);
      lines := lines[t := v];
    }
  }
}
