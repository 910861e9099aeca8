/** Terminal line configuration: the handlers of imi_cli.c, the run-length printer of imi_config.c, and replay. */
module LineConfig {
  import opened Octets

  const PRIVILEGE_MIN := 1
  const PRIVILEGE_MAX := 16
  const TIMEOUT_DEFAULT_MIN := 10
  const TIMEOUT_DEFAULT_SEC := 0
  const HISTORY_MAX := 0x7FFF_FFFF
  const LAST_VTY := 871

  /** The configuration of a line; the flag octet as five bits. */
  datatype Line = Line(login: bool, loginLocal: bool, hasPrivilege: bool, hasTimeout: bool, hasHistory: bool,
                       privilege: int, timeoutMin: int, timeoutSec: int, maxHist: int)

  /** imi_line_new */
  const NEW_LINE := Line(true, false, false, false, false, PRIVILEGE_MIN, TIMEOUT_DEFAULT_MIN, TIMEOUT_DEFAULT_SEC,
                         HISTORY_MAX)

  /** A command of line mode, with the integers the parser has read. */
  datatype Cmd =
    | LineVty(min: int, max: int)
    | NoLineVty(min: int, max: int)
    | Privilege(level: int)
    | NoPrivilege
    | Login
    | NoLogin
    | LoginLocal
    | History(n: int)
    | NoHistory
    | ExecTimeout(m: int, s: int)
    | NoExecTimeout

  /** The line vector and the range that line mode works on. */
  datatype Cli = Cli(lines: seq<Option<Line>>, min: nat, max: int)

  predicate InRange(c: Cmd) {
    match c
    case LineVty(min, max) => 0 <= min <= max <= LAST_VTY
    case NoLineVty(min, max) => 0 <= min <= max <= LAST_VTY
    case Privilege(p) => PRIVILEGE_MIN <= p <= PRIVILEGE_MAX
    case History(n) => 0 <= n <= HISTORY_MAX
    case ExecTimeout(m, s) => 0 <= m <= 35791 && 0 <= s <= 2147483
    case _ => true
  }

  /** What a line-mode command does to one line. */
  function Edit(l: Line, c: Cmd): Line {
    match c
    case Privilege(p) => l.(hasPrivilege := true, privilege := p)
    case NoPrivilege => l.(hasPrivilege := false, privilege := PRIVILEGE_MIN)
    case Login => l.(login := true, loginLocal := false)
    case NoLogin => l.(login := false, loginLocal := false)
    case LoginLocal => l.(login := false, loginLocal := true)
    case History(n) => l.(hasHistory := true, maxHist := n)
    case NoHistory => l.(hasHistory := false, maxHist := HISTORY_MAX)
    case ExecTimeout(m, s) =>
      l.(hasTimeout := l.hasTimeout || m != TIMEOUT_DEFAULT_MIN || s != TIMEOUT_DEFAULT_SEC, timeoutMin := m,
         timeoutSec := s)
    case NoExecTimeout => l.(hasTimeout := false, timeoutMin := TIMEOUT_DEFAULT_MIN, timeoutSec := TIMEOUT_DEFAULT_SEC)
    case _ => l
  }

  /** imi_line_get for every index of a range: missing lines are created, the vector grows as needed. */
  function Prepared(lines: seq<Option<Line>>, min: nat, max: nat): (r: seq<Option<Line>>)
    requires min <= max
    ensures |r| == if max < |lines| then |lines| else max + 1
    ensures forall i | 0 <= i < |r| :: r[i] == PreparedAt(lines, min, max, i)
  {
    seq(if max < |lines| then |lines| else max + 1, i requires 0 <= i => PreparedAt(lines, min, max, i))
  }

  function PreparedAt(lines: seq<Option<Line>>, min: nat, max: nat, i: nat): Option<Line> {
    if i < |lines| && lines[i].Some? then lines[i] else if min <= i <= max then Some(NEW_LINE) else None
  }

  function Freed(lines: seq<Option<Line>>, min: nat, max: nat): (r: seq<Option<Line>>)
    ensures |r| == |lines|
    ensures forall i | 0 <= i < |r| :: r[i] == if min <= i <= max then None else lines[i]
  {
    seq(|lines|, i requires 0 <= i < |lines| => if min <= i <= max then None else lines[i])
  }

  function Edited(lines: seq<Option<Line>>, min: nat, max: int, c: Cmd): (r: seq<Option<Line>>)
    ensures |r| == |lines|
    ensures forall i | 0 <= i < |r| :: r[i] == EditedAt(lines[i], min <= i <= max, c)
  {
    seq(|lines|, i requires 0 <= i < |lines| => EditedAt(lines[i], min <= i <= max, c))
  }

  function EditedAt(l: Option<Line>, inside: bool, c: Cmd): Option<Line> {
    if inside && l.Some? then Some(Edit(l.value, c)) else l
  }

  /** One command; values outside their range and reversed ranges are refused. */
  function Execute(s: Cli, c: Cmd): Cli {
    if !InRange(c) then s
    else match c
      case LineVty(min, max) => Cli(Prepared(s.lines, min, max), min, max)
      case NoLineVty(min, max) => Cli(Freed(s.lines, min, max), min, max)
      case _ => s.(lines := Edited(s.lines, s.min, s.max, c))
  }

  function ExecuteAll(s: Cli, cs: seq<Cmd>): Cli
    decreases |cs|
  {
    if cs == [] then s else ExecuteAll(Execute(s, cs[0]), cs[1..])
  }

  // ---- printing ----

  /** The commands for one line's settings, in the printer's order. */
  function Settings(l: Line): seq<Cmd> {
    (if l.hasTimeout then [ExecTimeout(l.timeoutMin, l.timeoutSec)] else [])
    + (if l.hasPrivilege then [Privilege(l.privilege)] else [])
    + (if l.hasHistory then [History(l.maxHist)] else [])
    + [if l.login then Login else if l.loginLocal then LoginLocal else NoLogin]
  }

  /** imi_line_config_out_encode */
  function Block(l: Line, min: nat, max: nat): seq<Cmd> {
    [LineVty(min, max)] + Settings(l)
  }

  /** Where the run of equal lines that begins at `first` ends, lines before i having been compared. */
  function RunEnd(ls: seq<Line>, first: nat, i: nat): (e: nat)
    requires first < i <= |ls|
    ensures i <= e <= |ls| && (forall k | i <= k < e :: ls[k] == ls[first]) && (e < |ls| ==> ls[e] != ls[first])
    decreases |ls| - i
  {
    if i < |ls| && ls[i] == ls[first] then RunEnd(ls, first, i + 1) else i
  }

  /** The lines in front of the first hole in the vector. */
  function Leading(lines: seq<Option<Line>>): (ls: seq<Line>)
    ensures |ls| <= |lines| && forall i | 0 <= i < |ls| :: lines[i] == Some(ls[i])
    ensures |ls| < |lines| ==> lines[|ls|] == None
  {
    if lines == [] || lines[0].None? then [] else [lines[0].value] + Leading(lines[1..])
  }

  // ---- the printed ranges ----

  datatype Range = Range(min: nat, max: nat, line: Line)

  /** The runs of equal lines from index k on. */
  function Ranges(ls: seq<Line>, k: nat): seq<Range>
    requires k <= |ls|
    decreases |ls| - k
  {
    if k == |ls| then []
    else
      var e := RunEnd(ls, k, k + 1);
      [Range(k, e - 1, ls[k])] + Ranges(ls, e)
  }

  function Blocks(rs: seq<Range>): seq<Cmd> {
    if rs == [] then [] else Block(rs[0].line, rs[0].min, rs[0].max) + Blocks(rs[1..])
  }

  /** What is printed for a sequence of lines. */
  function Printed(ls: seq<Line>): seq<Cmd> {
    Blocks(Ranges(ls, 0))
  }

  /** Consecutive ranges that cover exactly the indices from start up to end. */
  ghost predicate Partition(rs: seq<Range>, start: nat, end: nat) {
    && (rs == [] ==> start == end)
    && (rs != [] ==> rs[0].min == start && rs[|rs| - 1].max + 1 == end)
    && (forall k | 0 <= k < |rs| :: rs[k].min <= rs[k].max)
    && (forall k | 0 < k < |rs| :: rs[k].min == rs[k - 1].max + 1)
  }

  /** All lines of a range have the configuration printed for it. */
  ghost predicate Uniform(r: Range, ls: seq<Line>) {
    r.min <= r.max < |ls| && forall i | r.min <= i <= r.max :: ls[i] == r.line
  }

  lemma {:induction false} RangesPartition(ls: seq<Line>, k: nat)
    requires k <= |ls|
    ensures Partition(Ranges(ls, k), k, |ls|)
    decreases |ls| - k
  {
    if k < |ls| {
      RangesPartition(ls, RunEnd(ls, k, k + 1));
    }
  }

  lemma {:induction false} RangesUniform(ls: seq<Line>, k: nat, j: nat)
    requires k <= |ls| && j < |Ranges(ls, k)|
    ensures Uniform(Ranges(ls, k)[j], ls)
    decreases |ls| - k
  {
    if j > 0 {
      RangesUniform(ls, RunEnd(ls, k, k + 1), j - 1);
    }
  }

  lemma {:induction false} RangesMaximal(ls: seq<Line>, k: nat, j: nat)
    requires k <= |ls| && 0 < j < |Ranges(ls, k)|
    ensures Ranges(ls, k)[j].line != Ranges(ls, k)[j - 1].line
    decreases |ls| - k
  {
    if j > 1 {
      RangesMaximal(ls, RunEnd(ls, k, k + 1), j - 1);
    }
  }

  /** What is printed is one block for each of the maximal runs of equal lines in front of the first hole. */
  lemma PrintedRuns(lines: seq<Option<Line>>)
    ensures var ls := Leading(lines);
            var rs := Ranges(ls, 0);
            && Printed(ls) == Blocks(rs)
            && Partition(rs, 0, |ls|)
            && (forall k | 0 <= k < |rs| :: Uniform(rs[k], ls))
            && (forall k | 0 < k < |rs| :: rs[k].line != rs[k - 1].line)
  {
    var ls := Leading(lines);
    RangesPartition(ls, 0);
    forall k | 0 <= k < |Ranges(ls, 0)|
      ensures Uniform(Ranges(ls, 0)[k], ls)
    {
      RangesUniform(ls, 0, k);
    }
    forall k | 0 < k < |Ranges(ls, 0)|
      ensures Ranges(ls, 0)[k].line != Ranges(ls, 0)[k - 1].line
    {
      RangesMaximal(ls, 0, k);
    }
  }

  // ---- reachable settings ----

  /** What every line keeps whatever commands it has seen. */
  predicate Kept(l: Line) {
    && !(l.login && l.loginLocal)
    && PRIVILEGE_MIN <= l.privilege <= PRIVILEGE_MAX && (!l.hasPrivilege ==> l.privilege == PRIVILEGE_MIN)
    && 0 <= l.maxHist <= HISTORY_MAX && (!l.hasHistory ==> l.maxHist == HISTORY_MAX)
    && 0 <= l.timeoutMin <= 35791 && 0 <= l.timeoutSec <= 2147483
    && (!l.hasTimeout ==> l.timeoutMin == TIMEOUT_DEFAULT_MIN && l.timeoutSec == TIMEOUT_DEFAULT_SEC)
  }

  ghost predicate AllKept(lines: seq<Option<Line>>) {
    |lines| <= LAST_VTY + 1 && forall i | 0 <= i < |lines| :: lines[i].Some? ==> Kept(lines[i].value)
  }

  lemma EditKeeps(l: Line, c: Cmd)
    requires Kept(l) && InRange(c)
    ensures Kept(Edit(l, c))
  {
  }

  lemma ExecuteKeeps(s: Cli, c: Cmd)
    requires AllKept(s.lines)
    ensures AllKept(Execute(s, c).lines)
  {
    if InRange(c) && !c.LineVty? && !c.NoLineVty? {
      forall i | 0 <= i < |s.lines|
        ensures Execute(s, c).lines[i].Some? ==> Kept(Execute(s, c).lines[i].value)
      {
        if s.lines[i].Some? {
          EditKeeps(s.lines[i].value, c);
        }
      }
    }
  }

  lemma {:induction false} AllReachableKept(s: Cli, cs: seq<Cmd>)
    requires AllKept(s.lines)
    ensures AllKept(ExecuteAll(s, cs).lines)
    decreases |cs|
  {
    if cs != [] {
      ExecuteKeeps(s, cs[0]);
      AllReachableKept(Execute(s, cs[0]), cs[1..]);
    }
  }

  // ---- replay ----

  lemma {:induction false} ExecuteAppend(s: Cli, a: seq<Cmd>, b: seq<Cmd>)
    ensures ExecuteAll(s, a + b) == ExecuteAll(ExecuteAll(s, a), b)
    decreases |a|
  {
    if a == [] {
      assert a + b == b;
    } else {
      assert (a + b)[1..] == a[1..] + b;
      ExecuteAppend(Execute(s, a[0]), a[1..], b);
    }
  }

  function EditAll(l: Line, cs: seq<Cmd>): Line
    decreases |cs|
  {
    if cs == [] then l else EditAll(Edit(l, cs[0]), cs[1..])
  }

  /** Settings commands act on each line of the range by itself. */
  lemma {:induction false} SettingsActAlone(s: Cli, cs: seq<Cmd>, i: nat)
    requires i < |s.lines| && forall c | c in cs :: InRange(c) && !c.LineVty? && !c.NoLineVty?
    ensures var r := ExecuteAll(s, cs);
            && |r.lines| == |s.lines| && r.min == s.min && r.max == s.max
            && r.lines[i] == if s.min <= i <= s.max && s.lines[i].Some? then Some(EditAll(s.lines[i].value, cs))
                             else s.lines[i]
    decreases |cs|
  {
    if cs != [] {
      assert forall c | c in cs[1..] :: c in cs;
      SettingsActAlone(Execute(s, cs[0]), cs[1..], i);
    }
  }

  /** What printing and replaying makes of a line: the timeout flag is lost when the timeout is the default. */
  function Restored(l: Line): Line {
    l.(hasTimeout := l.hasTimeout && (l.timeoutMin != TIMEOUT_DEFAULT_MIN || l.timeoutSec != TIMEOUT_DEFAULT_SEC))
  }

  lemma SettingsInRange(l: Line)
    requires Kept(l)
    ensures forall c | c in Settings(l) :: InRange(c) && !c.LineVty? && !c.NoLineVty?
  {
  }

  lemma SettingsRestore(l: Line)
    requires Kept(l)
    ensures EditAll(NEW_LINE, Settings(l)) == Restored(l)
    ensures forall c | c in Settings(l) :: InRange(c) && !c.LineVty? && !c.NoLineVty?
  {
    SettingsInRange(l);
    hide InRange, Kept;
    var a := if l.hasTimeout then [ExecTimeout(l.timeoutMin, l.timeoutSec)] else [];
    var b := if l.hasPrivilege then [Privilege(l.privilege)] else [];
    var c := if l.hasHistory then [History(l.maxHist)] else [];
    var d := [if l.login then Login else if l.loginLocal then LoginLocal else NoLogin];
    EditAppend(NEW_LINE, a + b + c, d);
    EditAppend(NEW_LINE, a + b, c);
    EditAppend(NEW_LINE, a, b);
  }

  lemma {:induction false} EditAppend(l: Line, a: seq<Cmd>, b: seq<Cmd>)
    ensures EditAll(l, a + b) == EditAll(EditAll(l, a), b)
    decreases |a|
  {
    if a == [] {
      assert a + b == b;
    } else {
      assert (a + b)[1..] == a[1..] + b;
      EditAppend(Edit(l, a[0]), a[1..], b);
    }
  }

  function At(lines: seq<Option<Line>>, i: nat): Option<Line> {
    if i < |lines| then lines[i] else None
  }

  predicate Fresh(l: Option<Line>) {
    l == None || l == Some(NEW_LINE)
  }

  /** Replaying one block sets the lines of its range and no others. */
  lemma BlockRestores(s: Cli, l: Line, min: nat, max: nat, i: nat)
    requires Kept(l) && min <= max <= LAST_VTY && (min <= i <= max ==> Fresh(At(s.lines, i)))
    ensures At(ExecuteAll(s, Block(l, min, max)).lines, i)
         == if min <= i <= max then Some(Restored(l)) else At(s.lines, i)
  {
    var s1 := Execute(s, LineVty(min, max));
    assert Block(l, min, max)[1..] == Settings(l);
    SettingsRestore(l);
    if i < |s1.lines| {
      SettingsActAlone(s1, Settings(l), i);
    } else {
      SettingsActAlone(s1, Settings(l), 0);
    }
  }

  lemma {:induction false} PrintedRestores(s: Cli, ls: seq<Line>, k: nat, i: nat)
    requires (forall j | 0 <= j < |ls| :: Kept(ls[j])) && k <= |ls| <= LAST_VTY + 1
    requires k <= i < |ls| ==> Fresh(At(s.lines, i))
    ensures At(ExecuteAll(s, Blocks(Ranges(ls, k))).lines, i)
         == if k <= i < |ls| then Some(Restored(ls[i])) else At(s.lines, i)
    decreases |ls| - k
  {
    hide ExecuteAll, Blocks, Ranges, Block, RunEnd, Kept, Restored;
    if k < |ls| {
      var e := RunEnd(ls, k, k + 1);
      var block, rest := Block(ls[k], k, e - 1), Blocks(Ranges(ls, e));
      BlockRestores(s, ls[k], k, e - 1, i);
      FirstBlock(ls, k, e);
      ExecuteAppend(s, block, rest);
      PrintedRestores(ExecuteAll(s, block), ls, e, i);
    } else {
      NothingPrinted(s, ls);
    }
  }

  lemma NothingPrinted(s: Cli, ls: seq<Line>)
    ensures ExecuteAll(s, Blocks(Ranges(ls, |ls|))) == s
  {
  }

  lemma FirstBlock(ls: seq<Line>, k: nat, e: nat)
    requires k < |ls| && e == RunEnd(ls, k, k + 1)
    ensures Blocks(Ranges(ls, k)) == Block(ls[k], k, e - 1) + Blocks(Ranges(ls, e))
  {
    var rs := Ranges(ls, k);
    assert rs[0] == Range(k, e - 1, ls[k]) && rs[1..] == Ranges(ls, e);
  }

  /** Printing what any sequence of commands has left and replaying it on fresh lines restores every line in
      front of the first hole, and touches no other line. */
  lemma PrintReplay(start: Cli, cs: seq<Cmd>, lines: seq<Option<Line>>, target: Cli, i: nat)
    requires AllKept(start.lines) && lines == ExecuteAll(start, cs).lines
    requires Fresh(At(target.lines, i))
    ensures At(ExecuteAll(target, Printed(Leading(lines))).lines, i)
         == if i < |Leading(lines)| then Some(Restored(lines[i].value)) else At(target.lines, i)
  {
    hide ExecuteAll, Blocks, Ranges, Kept, Restored;
    AllReachableKept(start, cs);
    PrintedRestores(target, Leading(lines), 0, i);
  }

  /** Privilege, timeout, history limit and login mode always survive; the whole record does unless the timeout was
      set away from the default and back again. */
  lemma RestoredIs(l: Line)
    ensures var r := Restored(l);
            && (r.privilege, r.maxHist) == (l.privilege, l.maxHist)
            && (r.timeoutMin, r.timeoutSec) == (l.timeoutMin, l.timeoutSec)
            && (r.login, r.loginLocal) == (l.login, l.loginLocal)
            && (r == l <==>
                !(l.hasTimeout && l.timeoutMin == TIMEOUT_DEFAULT_MIN && l.timeoutSec == TIMEOUT_DEFAULT_SEC))
  {
  }

  /** Exactly which lines come back as they were: those in front of the first hole whose timeout was not set away from
      the default and back; behind a hole only those that are as the target's already. */
  lemma RestoredExactly(start: Cli, cs: seq<Cmd>, lines: seq<Option<Line>>, target: Cli, i: nat)
    requires AllKept(start.lines) && lines == ExecuteAll(start, cs).lines
    requires Fresh(At(target.lines, i)) && At(lines, i).Some?
    ensures var l := At(lines, i).value;
            At(ExecuteAll(target, Printed(Leading(lines))).lines, i) == Some(l) <==>
            if i < |Leading(lines)|
            then !(l.hasTimeout && l.timeoutMin == TIMEOUT_DEFAULT_MIN && l.timeoutSec == TIMEOUT_DEFAULT_SEC)
            else At(target.lines, i) == Some(l)
  {
    PrintReplay(start, cs, lines, target, i);
    RestoredIs(At(lines, i).value);
  }

  /** A line behind a hole is lost. */
  lemma HoleExample()
    ensures var lines := ExecuteAll(Cli([Some(NEW_LINE)], 0, 0), [NoLineVty(0, 0), LineVty(5, 5), Privilege(7)]).lines;
            At(lines, 5) == Some(NEW_LINE.(hasPrivilege := true, privilege := 7)) && Printed(Leading(lines)) == []
  {
    var s0, c1, c2, c3 := Cli([Some(NEW_LINE)], 0, 0), NoLineVty(0, 0), LineVty(5, 5), Privilege(7);
    var s1 := Execute(s0, c1);
    var s2 := Execute(s1, c2);
    var s3 := Execute(s2, c3);
    assert [c1, c2, c3][1..] == [c2, c3] && [c2, c3][1..] == [c3] && [c3][1..] == [];
    assert ExecuteAll(s2, [c3]) == ExecuteAll(s3, []) == s3;
    assert ExecuteAll(s0, [c1, c2, c3]) == s3;
    assert s3.lines[0] == None;
    assert Leading(s3.lines) == [];
  }

  // ---- each command by its effect ----

  predicate SameLogin(a: Line, b: Line) {
    a.login == b.login && a.loginLocal == b.loginLocal
  }

  predicate SamePrivilege(a: Line, b: Line) {
    a.hasPrivilege == b.hasPrivilege && a.privilege == b.privilege
  }

  predicate SameTimeout(a: Line, b: Line) {
    a.hasTimeout == b.hasTimeout && a.timeoutMin == b.timeoutMin && a.timeoutSec == b.timeoutSec
  }

  predicate SameHistory(a: Line, b: Line) {
    a.hasHistory == b.hasHistory && a.maxHist == b.maxHist
  }

  /** What a settings command is to make of line `l`: its own fields whatever they were, and none of the others. */
  predicate Sets(c: Cmd, l: Line, r: Line) {
    match c
    case Privilege(p) => r.hasPrivilege && r.privilege == p && SameLogin(l, r) && SameTimeout(l, r) && SameHistory(l, r)
    case NoPrivilege =>
      !r.hasPrivilege && r.privilege == 1 && SameLogin(l, r) && SameTimeout(l, r) && SameHistory(l, r)
    case Login => r.login && !r.loginLocal && SamePrivilege(l, r) && SameTimeout(l, r) && SameHistory(l, r)
    case NoLogin => !r.login && !r.loginLocal && SamePrivilege(l, r) && SameTimeout(l, r) && SameHistory(l, r)
    case LoginLocal => !r.login && r.loginLocal && SamePrivilege(l, r) && SameTimeout(l, r) && SameHistory(l, r)
    case History(n) => r.hasHistory && r.maxHist == n && SameLogin(l, r) && SamePrivilege(l, r) && SameTimeout(l, r)
    case NoHistory =>
      !r.hasHistory && r.maxHist == 0x7FFF_FFFF && SameLogin(l, r) && SamePrivilege(l, r) && SameTimeout(l, r)
    case ExecTimeout(m, s) =>
      r.timeoutMin == m && r.timeoutSec == s && (r.hasTimeout <==> l.hasTimeout || m != 10 || s != 0)
      && SameLogin(l, r) && SamePrivilege(l, r) && SameHistory(l, r)
    case NoExecTimeout =>
      !r.hasTimeout && r.timeoutMin == 10 && r.timeoutSec == 0
      && SameLogin(l, r) && SamePrivilege(l, r) && SameHistory(l, r)
    case _ => false
  }

  predicate IsSetting(c: Cmd) {
    !c.LineVty? && !c.NoLineVty?
  }

  /** The numbers a handler accepts. */
  predicate Accepted(c: Cmd) {
    match c
    case LineVty(min, max) => 0 <= min <= max <= 871
    case NoLineVty(min, max) => 0 <= min <= max <= 871
    case Privilege(p) => 1 <= p <= 16
    case History(n) => 0 <= n <= 2147483647
    case ExecTimeout(m, s) => 0 <= m <= 35791 && 0 <= s <= 2147483
    case _ => true
  }

  /** A settings command acts on every line of the selected range and on nothing else; with a number out of range it
      does nothing. */
  lemma SettingActs(s: Cli, c: Cmd, i: nat)
    requires IsSetting(c) && i < |s.lines|
    ensures var r := Execute(s, c);
            && |r.lines| == |s.lines| && r.min == s.min && r.max == s.max
            && if Accepted(c) && s.min <= i <= s.max && s.lines[i].Some?
               then r.lines[i].Some? && Sets(c, s.lines[i].value, r.lines[i].value)
               else r.lines[i] == s.lines[i]
  {
  }

  /** Selecting a range keeps the lines there are and creates those missing in it with default settings. */
  lemma SelectingActs(s: Cli, min: int, max: int, i: nat)
    ensures var r := Execute(s, LineVty(min, max));
            if !(0 <= min <= max <= 871) then r == s
            else
              && r.min == min && r.max == max
              && At(r.lines, i) == if At(s.lines, i).Some? then At(s.lines, i)
                                   else if min <= i <= max
                                   then Some(Line(true, false, false, false, false, 1, 10, 0, 0x7FFF_FFFF)) else None
  {
  }

  /** Freeing a range empties its slots and keeps the other lines. */
  lemma FreeingActs(s: Cli, min: int, max: int, i: nat)
    ensures var r := Execute(s, NoLineVty(min, max));
            if !(0 <= min <= max <= 871) then r == s
            else r.min == min && r.max == max && At(r.lines, i) == if min <= i <= max then None else At(s.lines, i)
  {
  }

  /** Commands that set the same fields outright. */
  predicate SameGroup(a: Cmd, b: Cmd) {
    || (a in {Login, NoLogin, LoginLocal} && b in {Login, NoLogin, LoginLocal})
    || ((a.Privilege? || a.NoPrivilege?) && (b.Privilege? || b.NoPrivilege?))
    || ((a.History? || a.NoHistory?) && (b.History? || b.NoHistory?))
    || (a.ExecTimeout? && b.NoExecTimeout?)
  }

  lemma SetsTwice(a: Cmd, b: Cmd, l: Line, l1: Line, l2: Line, r: Line)
    requires SameGroup(a, b) && Sets(a, l, l1) && Sets(b, l1, l2) && Sets(b, l, r)
    ensures l2 == r
  {
  }

  /** Of two commands of a group the later one alone counts. */
  lemma LaterCounts(s: Cli, a: Cmd, b: Cmd)
    requires SameGroup(a, b) && Accepted(a) && Accepted(b)
    ensures Execute(Execute(s, a), b) == Execute(s, b)
  {
    hide SameGroup, Sets, Accepted, Execute;
    SettingsOfGroup(a, b);
    var s1, s2, r := Execute(s, a), Execute(Execute(s, a), b), Execute(s, b);
    SameShape(s, a);
    SameShape(s1, b);
    SameShape(s, b);
    forall i | 0 <= i < |s.lines|
      ensures s2.lines[i] == r.lines[i]
    {
      SettingActs(s, a, i);
      SettingActs(s1, b, i);
      SettingActs(s, b, i);
      if s.min <= i <= s.max && s.lines[i].Some? {
        SetsTwice(a, b, s.lines[i].value, s1.lines[i].value, s2.lines[i].value, r.lines[i].value);
      }
    }
  }

  lemma SettingsOfGroup(a: Cmd, b: Cmd)
    requires SameGroup(a, b)
    ensures IsSetting(a) && IsSetting(b)
  {
  }

  lemma SameShape(s: Cli, c: Cmd)
    requires IsSetting(c)
    ensures |Execute(s, c).lines| == |s.lines| && Execute(s, c).min == s.min && Execute(s, c).max == s.max
  {
  }

  /** After a `no` form nothing of its group is printed any more; without login that is what is printed. */
  lemma NoFormPrints(l: Line, r: Line)
    ensures Sets(NoPrivilege, l, r) ==> forall c | c in Settings(r) :: !c.Privilege?
    ensures Sets(NoHistory, l, r) ==> forall c | c in Settings(r) :: !c.History?
    ensures Sets(NoExecTimeout, l, r) ==> forall c | c in Settings(r) :: !c.ExecTimeout?
    ensures Sets(NoLogin, l, r) ==> NoLogin in Settings(r) && Login !in Settings(r) && LoginLocal !in Settings(r)
  {
  }

  lemma {:induction false} RunEndIs(ls: seq<Line>, first: nat, i: nat, e: nat)
    requires first < i <= e <= |ls|
    requires (forall j | i <= j < e :: ls[j] == ls[first]) && (e < |ls| ==> ls[e] != ls[first])
    ensures RunEnd(ls, first, i) == e
    decreases e - i
  {
    if i < e {
      RunEndIs(ls, first, i + 1, e);
    }
  }

  class LineTable {
    var lines: seq<Option<Line>>
    var min: nat
    var max: int

    function Abs(): Cli
      reads this
    {
      Cli(lines, min, max)
    }

    /** The vector as it is set up at start: `count` lines with default settings. */
    constructor (count: nat)
      ensures Abs() == Cli(seq(count, _ => Some(NEW_LINE)), 0, 0)
    {
      lines := seq(count, _ => Some(NEW_LINE));
      min, max := 0, 0;
    }

    /** imi_line_get: look the slot up, create the line if there is none. */
    method LineGet(i: nat)
      modifies this`lines
      ensures lines == Prepared(old(lines), i, i)
    {
      if i >= |lines| {
        lines := lines + seq(i + 1 - |lines|, _ => None);
      }
      if lines[i].None? {
        lines := lines[i := Some(NEW_LINE)];
      }
    }

    /** line vty */
    method SelectVty(lo: nat, hi: nat)
      requires lo <= hi
      modifies this
      ensures Abs() == Cli(Prepared(old(lines), lo, hi), lo, hi)
    {
      for i := lo to hi + 1
        invariant i == lo ==> lines == old(lines)
        invariant i > lo ==> lines == Prepared(old(lines), lo, i - 1)
      {
        LineGet(i);
      }
      min, max := lo, hi;
    }

    /** no line vty */
    method FreeVty(lo: nat, hi: nat)
      requires lo <= hi
      modifies this
      ensures Abs() == Cli(Freed(old(lines), lo, hi), lo, hi)
    {
      for i := lo to hi + 1
        invariant |lines| == |old(lines)|
        invariant forall k | 0 <= k < |lines| :: lines[k] == if lo <= k < i then None else old(lines)[k]
      {
        if i < |lines| {
          lines := lines[i := None];
        }
      }
      min, max := lo, hi;
    }

    /** The loop every settings handler runs over the selected lines. */
    method EditSelected(c: Cmd)
      modifies this`lines
      ensures lines == Edited(old(lines), min, max, c)
    {
      var i: int := min;
      while i <= max
        invariant min <= i && (i <= max + 1 || i == min)
        invariant |lines| == |old(lines)|
        invariant forall k | 0 <= k < |lines| :: lines[k] == EditedAt(old(lines)[k], min <= k < i, c)
      {
        if i < |lines| && lines[i].Some? {
          lines := lines[i := Some(Edit(lines[i].value, c))];
        }
        i := i + 1;
      }
    }

    /** One command, its numbers checked first. */
    method Run(c: Cmd)
      modifies this
      ensures Abs() == Execute(old(Abs()), c)
    {
      if !InRange(c) {
        return;
      }
      match c {
        case LineVty(lo, hi) => SelectVty(lo, hi);
        case NoLineVty(lo, hi) => FreeVty(lo, hi);
        case _ => EditSelected(c);
      }
    }

    /** imi_line_config_out_encode */
    method OutEncode(line: Option<Line>, lo: nat, hi: nat) returns (out: seq<Cmd>)
      ensures out == if line.None? then [] else Block(line.value, lo, hi)
    {
      if line.None? {
        return [];
      }
      var l := line.value;
      out := [LineVty(lo, hi)];
      if l.hasTimeout {
        out := out + [ExecTimeout(l.timeoutMin, l.timeoutSec)];
      }
      if l.hasPrivilege {
        out := out + [Privilege(l.privilege)];
      }
      if l.hasHistory {
        out := out + [History(l.maxHist)];
      }
      if !l.login && !l.loginLocal {
        out := out + [NoLogin];
      } else if l.login {
        out := out + [Login];
      } else {
        out := out + [LoginLocal];
      }
    }

    /** imi_line_config_type_encode: one pass that remembers where the current run began. */
    method TypeEncode() returns (out: seq<Cmd>)
      ensures out == Printed(Leading(lines))
    {
      out := [];
      ghost var ls, rs: seq<Range> := Leading(lines), [];
      var lo, hi, last := 0, 0, Option<Line>.None;
      var i := 0;
      while i < |lines| && lines[i].Some?
        invariant 0 <= i <= |ls|
        invariant Printing(ls, rs, lo, hi, last, i, out)
      {
        out, lo, hi, last, rs := NextLine(lines[i], i, out, lo, hi, last, ls, rs);
        i := i + 1;
      }
      assert i == |ls|;
      PrintingEnds(ls, rs, lo, hi, last, out);
      var block := OutEncode(last, lo, hi);
      out := out + block;
    }

    /** The body of the loop for line i. */
    method NextLine(line: Option<Line>, i: nat, out: seq<Cmd>, lo: nat, hi: nat, last: Option<Line>,
                    ghost ls: seq<Line>, ghost rs: seq<Range>)
        returns (out2: seq<Cmd>, lo2: nat, hi2: nat, last2: Option<Line>, ghost rs2: seq<Range>)
      requires i < |ls| && line == Some(ls[i]) && Printing(ls, rs, lo, hi, last, i, out)
      ensures Printing(ls, rs2, lo2, hi2, last2, i + 1, out2)
    {
      hide Blocks, Block, Ranges, Settings;
      if last.None? {
        RunBegins(ls);
        return out, lo, i, line, rs;
      }
      if last == line {
        RunGrows(ls, rs, lo, i);
        return out, lo, i, last, rs;
      }
      var block := OutEncode(last, lo, hi);
      RunCloses(ls, rs, lo, i);
      NextRun(ls, rs, lo, i);
      return out + block, i, i, line, rs + [Range(lo, hi, ls[lo])];
    }
  }

  /** The printer's variables in front of line i. */
  ghost predicate Printing(ls: seq<Line>, rs: seq<Range>, lo: nat, hi: nat, last: Option<Line>, i: nat, out: seq<Cmd>) {
    && out == Blocks(rs)
    && if i == 0 then last == None && lo == hi == 0 && rs == []
       else InRun(ls, rs, lo, i) && hi == i - 1 && last == Some(ls[lo])
  }

  lemma PrintingEnds(ls: seq<Line>, rs: seq<Range>, lo: nat, hi: nat, last: Option<Line>, out: seq<Cmd>)
    requires Printing(ls, rs, lo, hi, last, |ls|, out)
    ensures Printed(ls) == out + (if last.None? then [] else Block(last.value, lo, hi))
  {
    if ls != [] {
      RunCloses(ls, rs, lo, |ls|);
      var all := rs + [Range(lo, hi, ls[lo])];
      assert all + [] == all;
    }
  }

  /** The printer stands behind line i - 1 in a run that began at `first`; the earlier runs are rs. */
  ghost predicate InRun(ls: seq<Line>, rs: seq<Range>, first: nat, i: nat) {
    first < i <= |ls| && (forall j | first <= j < i :: ls[j] == ls[first]) && Ranges(ls, 0) == rs + Ranges(ls, first)
  }

  lemma RunBegins(ls: seq<Line>)
    requires ls != []
    ensures InRun(ls, [], 0, 1)
  {
    assert [] + Ranges(ls, 0) == Ranges(ls, 0);
  }

  lemma RunGrows(ls: seq<Line>, rs: seq<Range>, first: nat, i: nat)
    requires InRun(ls, rs, first, i) && i < |ls| && ls[i] == ls[first]
    ensures InRun(ls, rs, first, i + 1)
  {
  }

  lemma RunCloses(ls: seq<Line>, rs: seq<Range>, first: nat, i: nat)
    requires InRun(ls, rs, first, i) && (i < |ls| ==> ls[i] != ls[first])
    ensures Ranges(ls, 0) == rs + [Range(first, i - 1, ls[first])] + Ranges(ls, i)
    ensures Blocks(rs + [Range(first, i - 1, ls[first])]) == Blocks(rs) + Block(ls[first], first, i - 1)
  {
    hide Blocks, Block;
    RunEndIs(ls, first, first + 1, i);
    var r := [Range(first, i - 1, ls[first])];
    assert rs + (r + Ranges(ls, i)) == rs + r + Ranges(ls, i);
    BlocksSnoc(rs, Range(first, i - 1, ls[first]));
  }

  /** The next run begins where the last one has closed. */
  lemma NextRun(ls: seq<Line>, rs: seq<Range>, first: nat, i: nat)
    requires InRun(ls, rs, first, i) && i < |ls| && ls[i] != ls[first]
    ensures InRun(ls, rs + [Range(first, i - 1, ls[first])], i, i + 1)
  {
    RunCloses(ls, rs, first, i);
  }

  lemma {:induction false} BlocksSnoc(rs: seq<Range>, r: Range)
    ensures Blocks(rs + [r]) == Blocks(rs) + Block(r.line, r.min, r.max)
  {
    if rs == [] {
      assert [r][1..] == [] && Block(r.line, r.min, r.max) + [] == Block(r.line, r.min, r.max);
    } else {
      assert (rs + [r])[1..] == rs[1..] + [r];
      BlocksSnoc(rs[1..], r);
    }
  }
}
