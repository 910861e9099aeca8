/** Start-up configuration of a protocol module: the config file merged with what IMI holds, in sequencer order. */
module StartupReplay {
  import opened Octets

  const CONFIG_MODE := 5
  const PROTO_IMI := 1

  /** What the command parser says about a line in a mode; type and new mode only where it sets them. */
  datatype ParseResult =
    | Success(dtype: Option<int>, newMode: Option<int>, modules: set<int>)
    | Failure
    | Empty

  /** An entry of the sequencer table. */
  datatype SeqEntry = SeqEntry(dtype: int, imi: bool)

  /** The parser, the sequencer table, the module being configured, and the commands IMI holds for a type. */
  datatype Config = Config(parse: (int, string) -> ParseResult, table: seq<SeqEntry>, pm: set<int>,
                           held: int -> seq<string>)

  /** cfg_seq_get_index */
  function IndexOf(table: seq<SeqEntry>, d: int): (i: int)
    ensures -1 <= i < |table|
    ensures if i >= 0 then table[i].dtype == d && forall j | 0 <= j < i :: table[j].dtype != d
            else forall j | 0 <= j < |table| :: table[j].dtype != d
  {
    if table == [] then -1 else if table[0].dtype == d then 0
    else var i := IndexOf(table[1..], d); if i < 0 then -1 else i + 1
  }

  /** cfg_seq_is_imi_dtype: false outside the table, -1 included. */
  predicate IsImi(table: seq<SeqEntry>, i: int) {
    0 <= i < |table| && table[i].imi
  }

  /** The IMI-held indices from lo up to, not including, hi. */
  function ImiIndices(table: seq<SeqEntry>, lo: int, hi: int): seq<int>
    decreases hi - lo
  {
    if lo >= hi then [] else ImiIndices(table, lo, hi - 1) + (if IsImi(table, hi - 1) then [hi - 1] else [])
  }

  /** They are the indices of IMI data from lo up to hi, each once and ascending. */
  lemma {:induction false} ImiIndicesAre(table: seq<SeqEntry>, lo: int, hi: int)
    ensures forall k | 0 <= k < |ImiIndices(table, lo, hi)| ::
              lo <= ImiIndices(table, lo, hi)[k] < hi && IsImi(table, ImiIndices(table, lo, hi)[k])
    ensures forall i | lo <= i < hi && IsImi(table, i) :: i in ImiIndices(table, lo, hi)
    ensures forall j, k | 0 <= j < k < |ImiIndices(table, lo, hi)| ::
              ImiIndices(table, lo, hi)[j] < ImiIndices(table, lo, hi)[k]
    decreases hi - lo
  {
    if lo < hi {
      ImiIndicesAre(table, lo, hi - 1);
    }
  }

  lemma {:induction false} IndicesJoin(table: seq<SeqEntry>, lo: int, mid: int, hi: int)
    requires lo <= mid <= hi
    ensures ImiIndices(table, lo, hi) == ImiIndices(table, lo, mid) + ImiIndices(table, mid, hi)
    decreases hi - mid
  {
    if mid < hi {
      IndicesJoin(table, lo, mid, hi - 1);
    }
  }

  // ---- one line ----

  /** A parsed command and the mode the line is left in. */
  datatype Parsed = Parsed(mode: int, ok: bool, dtype: Option<int>, newMode: int, modules: set<int>)

  function Or(x: Option<int>, otherwise: int): int {
    if x.Some? then x.value else otherwise
  }

  /** _imi_server_parse_config_cmd: on a failure the line is tried once more in CONFIG_MODE, and stays there. */
  function ParseCmd(cfg: Config, mode: int, text: string): Parsed {
    match cfg.parse(mode, text)
    case Success(d, m, mods) => Parsed(mode, true, d, Or(m, mode), mods)
    case Empty => Parsed(mode, false, None, mode, {})
    case Failure =>
      match cfg.parse(CONFIG_MODE, text)
      case Success(d, m, mods) => Parsed(CONFIG_MODE, true, d, Or(m, CONFIG_MODE), mods)
      case _ => Parsed(CONFIG_MODE, false, None, CONFIG_MODE, {})
  }

  /** Mode, whether commands get through to the module, and the mode in which they will again after an error. */
  datatype Channel = Channel(mode: int, open: bool, prevMode: int)

  /** _imi_server_send_config_cmd; `reply` is the module's answer should the line be sent. */
  function Send(cfg: Config, c: Channel, p: Parsed, reply: bool): (Channel, bool) {
    var sent := c.open && (p.modules - {PROTO_IMI}) * cfg.pm != {};
    var prev := if sent && !reply then c.mode else c.prevMode;
    (Channel(p.newMode, p.newMode == prev || (c.open && !(sent && !reply)), prev), sent)
  }

  /** How sending one line to the module ends: carried out, refused, or the connection is lost. */
  datatype Reply = Done | Refused | Lost

  datatype State = State(chan: Channel, skip: Option<int>, copy: Option<int>, next: int)

  /** What happened to a line: its type if it parsed and has one, the IMI blocks sent in front of it, whether it was
      passed on, and whether it was sent. */
  datatype Record = Record(stamp: Option<int>, blocks: seq<int>, passed: bool, sent: bool)

  const SKIPPED := Record(None, [], false, false)

  /** The body of the loop of _imi_server_send_config_to_pm. */
  function StepLine(cfg: Config, s: State, text: string, reply: bool): (State, Record) {
    var p := ParseCmd(cfg, s.chan.mode, text);
    var c := s.chan.(mode := p.mode);
    if !p.ok then (s.(chan := c), SKIPPED)
    else
      var c1 := if p.mode == CONFIG_MODE then c.(open := true) else c;
      if p.dtype.Some? && s.skip == p.dtype then (s.(chan := c1), Record(p.dtype, [], false, false))
      else if s.copy.Some? && (s.copy == p.dtype || p.dtype.None?) then
        var (c2, sent) := Send(cfg, c1, p, reply);
        (s.(chan := c2), Record(p.dtype, [], true, sent))
      else if p.dtype.None? then
        if p.modules <= {PROTO_IMI} then (s.(chan := c1), SKIPPED)
        else
          var (c2, sent) := Send(cfg, c1, p, reply);
          (s.(chan := c2), Record(None, [], true, sent))
      else
        Section(cfg, s.(chan := c1), p, reply)
  }

  /** A line whose type starts a new section: IMI data of smaller or equal index goes first. */
  function Section(cfg: Config, s: State, p: Parsed, reply: bool): (State, Record)
    requires p.dtype.Some?
  {
    var ix := IndexOf(cfg.table, p.dtype.value);
    var blocks := ImiIndices(cfg.table, s.next, ix + 1);
    var c := if s.next <= ix then s.chan.(prevMode := s.chan.mode) else s.chan;
    var next := if s.next <= ix then ix + 1 else s.next;
    if IsImi(cfg.table, ix) then (State(c, p.dtype, None, next), Record(p.dtype, blocks, false, false))
    else
      var (c2, sent) := Send(cfg, c.(open := true), p, reply);
      (State(c2, None, p.dtype, next), Record(p.dtype, blocks, true, sent))
  }

  // ---- a whole file ----

  function Start(mode: int): State {
    State(Channel(mode, true, mode), None, None, 0)
  }

  /** State and records after the lines; `replies` are the module's answers, line by line. */
  function Replay(cfg: Config, mode: int, lines: seq<string>, replies: nat -> bool): (r: (State, seq<Record>))
    ensures |r.1| == |lines|
  {
    if lines == [] then (Start(mode), [])
    else
      var n := |lines| - 1;
      var (s, rs) := Replay(cfg, mode, lines[..n], replies);
      var (s2, rec) := StepLine(cfg, s, lines[n], replies(n));
      (s2, rs + [rec])
  }

  /** All IMI blocks of a run in the order sent. */
  function Blocks(rs: seq<Record>): seq<int> {
    if rs == [] then [] else Blocks(rs[..|rs| - 1]) + rs[|rs| - 1].blocks
  }

  function Max(a: int, b: int): int {
    if a < b then b else a
  }

  /** The largest sequencer index stamped on a parsed line, or -1. */
  function Largest(table: seq<SeqEntry>, rs: seq<Record>): (m: int)
    ensures m >= -1
    ensures forall k | 0 <= k < |rs| && rs[k].stamp.Some? :: IndexOf(table, rs[k].stamp.value) <= m
  {
    if rs == [] then -1
    else
      var n := |rs| - 1;
      Max(Largest(table, rs[..n]), if rs[n].stamp.Some? then IndexOf(table, rs[n].stamp.value) else -1)
  }

  /** What the loop keeps: how far the sequencer has come, and of which kinds the two section types are. */
  ghost predicate Inv(cfg: Config, s: State, rs: seq<Record>) {
    && s.next == Largest(cfg.table, rs) + 1
    && Blocks(rs) == ImiIndices(cfg.table, 0, s.next)
    && (s.copy.Some? ==>
          IndexOf(cfg.table, s.copy.value) < s.next && !IsImi(cfg.table, IndexOf(cfg.table, s.copy.value)))
    && (s.skip.Some? ==>
          IndexOf(cfg.table, s.skip.value) < s.next && IsImi(cfg.table, IndexOf(cfg.table, s.skip.value)))
  }

  lemma RecordAdded(table: seq<SeqEntry>, rs: seq<Record>, rec: Record)
    ensures Blocks(rs + [rec]) == Blocks(rs) + rec.blocks
    ensures Largest(table, rs + [rec])
         == Max(Largest(table, rs), if rec.stamp.Some? then IndexOf(table, rec.stamp.value) else -1)
  {
    assert (rs + [rec])[..|rs|] == rs;
  }

  /** A line that starts no section. */
  lemma QuietKeeps(cfg: Config, s: State, rs: seq<Record>, s2: State, rec: Record)
    requires Inv(cfg, s, rs) && rec.blocks == [] && s2 == s.(chan := s2.chan)
    requires rec.stamp.Some? ==> IndexOf(cfg.table, rec.stamp.value) < s.next
    ensures Inv(cfg, s2, rs + [rec])
  {
    RecordAdded(cfg.table, rs, rec);
    assert Blocks(rs) + [] == Blocks(rs);
  }

  lemma SectionKeeps(cfg: Config, s: State, p: Parsed, reply: bool, rs: seq<Record>, s2: State, rec: Record)
    requires Inv(cfg, s, rs) && p.dtype.Some? && (s2, rec) == Section(cfg, s, p, reply)
    ensures Inv(cfg, s2, rs + [rec]) && (rec.passed <==> !IsImi(cfg.table, IndexOf(cfg.table, p.dtype.value)))
  {
    hide Send, Largest, Blocks;
    var ix := IndexOf(cfg.table, p.dtype.value);
    RecordAdded(cfg.table, rs, rec);
    if s.next <= ix {
      IndicesJoin(cfg.table, 0, s.next, ix + 1);
    } else {
      assert Blocks(rs) + [] == Blocks(rs);
    }
  }

  lemma StepKeeps(cfg: Config, s: State, text: string, reply: bool, rs: seq<Record>, s2: State, rec: Record)
    requires Inv(cfg, s, rs) && (s2, rec) == StepLine(cfg, s, text, reply)
    ensures Inv(cfg, s2, rs + [rec])
    ensures rec.stamp.Some? ==> (rec.passed <==> !IsImi(cfg.table, IndexOf(cfg.table, rec.stamp.value)))
    ensures rec.sent ==> rec.passed
  {
    var p := ParseCmd(cfg, s.chan.mode, text);
    if p.ok && p.dtype.Some? && s.skip != p.dtype && s.copy != p.dtype {
      var c := Channel(p.mode, s.chan.open || p.mode == CONFIG_MODE, s.chan.prevMode);
      SectionKeeps(cfg, s.(chan := c), p, reply, rs, s2, rec);
    } else {
      QuietKeeps(cfg, s, rs, s2, rec);
    }
  }

  lemma {:induction false} RunKeeps(cfg: Config, mode: int, lines: seq<string>, replies: nat -> bool)
    ensures Inv(cfg, Replay(cfg, mode, lines, replies).0, Replay(cfg, mode, lines, replies).1)
  {
    if lines != [] {
      var n := |lines| - 1;
      RunKeeps(cfg, mode, lines[..n], replies);
      var (s, rs) := Replay(cfg, mode, lines[..n], replies);
      var (s2, rec) := StepLine(cfg, s, lines[n], replies(n));
      StepKeeps(cfg, s, lines[n], replies(n), rs, s2, rec);
    }
  }

  /** Over any file, whatever the parser and the module answer: the IMI blocks sent are exactly the IMI-held
      types up to the largest index stamped on a parsed line, each once, in increasing sequencer order. */
  lemma OrderedMerge(cfg: Config, mode: int, lines: seq<string>, replies: nat -> bool)
    ensures var rs := Replay(cfg, mode, lines, replies).1;
            MergedUpTo(cfg.table, Blocks(rs), Largest(cfg.table, rs))
            && Blocks(rs) == ImiIndices(cfg.table, 0, Largest(cfg.table, rs) + 1)
  {
    RunKeeps(cfg, mode, lines, replies);
    ImiMerged(cfg.table, Largest(cfg.table, Replay(cfg, mode, lines, replies).1));
  }

  /** Strictly ascending, and exactly the IMI-held indices up to n. */
  ghost predicate MergedUpTo(table: seq<SeqEntry>, blocks: seq<int>, n: int) {
    && (forall j, k | 0 <= j < k < |blocks| :: blocks[j] < blocks[k])
    && (forall i :: i in blocks <==> IsImi(table, i) && i <= n)
  }

  lemma ImiMerged(table: seq<SeqEntry>, n: int)
    ensures MergedUpTo(table, ImiIndices(table, 0, n + 1), n)
  {
    ImiIndicesAre(table, 0, n + 1);
  }

  lemma {:induction false} ReplayPrefix(cfg: Config, mode: int, lines: seq<string>, replies: nat -> bool, n: nat)
    requires n <= |lines|
    ensures Replay(cfg, mode, lines[..n], replies).1 == Replay(cfg, mode, lines, replies).1[..n]
    decreases |lines|
  {
    if n == |lines| {
      assert lines[..n] == lines;
    } else {
      var m := |lines| - 1;
      ReplayPrefix(cfg, mode, lines[..m], replies, n);
      assert lines[..m][..n] == lines[..n];
      var rs, all := Replay(cfg, mode, lines[..m], replies).1, Replay(cfg, mode, lines, replies).1;
      assert all[..n] == rs[..n];
    }
  }

  /** A file line stamped with a type is passed on exactly if the type is not IMI-held, and by then every IMI
      type of smaller index has been sent. */
  lemma StampedLines(cfg: Config, mode: int, lines: seq<string>, replies: nat -> bool, k: nat)
    requires k < |lines| && Replay(cfg, mode, lines, replies).1[k].stamp.Some?
    ensures var rs := Replay(cfg, mode, lines, replies).1;
            var ix := IndexOf(cfg.table, rs[k].stamp.value);
            && (rs[k].passed <==> !IsImi(cfg.table, ix)) && (rs[k].sent ==> rs[k].passed)
            && forall i | 0 <= i < ix && IsImi(cfg.table, i) :: i in Blocks(rs[..k + 1])
  {
    ReplayPrefix(cfg, mode, lines, replies, k);
    ReplayPrefix(cfg, mode, lines, replies, k + 1);
    RunKeeps(cfg, mode, lines[..k], replies);
    OrderedMerge(cfg, mode, lines[..k + 1], replies);
    var (s, before) := Replay(cfg, mode, lines[..k], replies);
    assert lines[..k + 1][..k] == lines[..k] && lines[..k + 1][k] == lines[k];
    var (s2, rec) := StepLine(cfg, s, lines[k], replies(k));
    StepKeeps(cfg, s, lines[k], replies(k), before, s2, rec);
    var rs := Replay(cfg, mode, lines, replies).1;
    assert rs[..k + 1] == before + [rec];
    assert rs[..k + 1][k] == rs[k] == rec;
  }

  // ---- which lines are sent ----

  /** The parser succeeds on a line in the mode it is met in or, where it fails there, in CONFIG_MODE; an empty line
      is not tried again. The type and the modules are the parser's, and so is the new mode if it names one. */
  lemma RetriedInConfig(cfg: Config, mode: int, text: string)
    ensures var p := ParseCmd(cfg, mode, text);
            && (p.ok <==> cfg.parse(mode, text).Success?
                          || (cfg.parse(mode, text).Failure? && cfg.parse(5, text).Success?))
            && p.mode == (if cfg.parse(mode, text).Failure? then 5 else mode)
            && (p.ok ==> cfg.parse(p.mode, text).dtype == p.dtype && cfg.parse(p.mode, text).modules == p.modules)
            && p.newMode == (if p.ok && cfg.parse(p.mode, text).newMode.Some?
                             then cfg.parse(p.mode, text).newMode.value else p.mode)
  {
  }

  /** The command is one of the module being configured: some module it belongs to, not counting IMI, is. */
  ghost predicate Concerns(cfg: Config, p: Parsed) {
    exists m :: m in p.modules && m in cfg.pm && m != 1
  }

  /** The mode that has to come back before lines are sent again, after a line that was passed on. */
  function Awaiting(w: Option<int>, p: Parsed, refused: bool): Option<int> {
    if refused && p.newMode != p.mode then Some(p.mode)
    else if refused || w == Some(p.newMode) then None
    else w
  }

  /** The channel is held back exactly while a mode is awaited. */
  ghost predicate Waits(c: Channel, w: Option<int>) {
    if c.open then w == None else w == Some(c.prevMode)
  }

  lemma Member<T>(s: set<T>) returns (x: T)
    requires s != {}
    ensures x in s
  {
    x :| x in s;
  }

  lemma SendIs(cfg: Config, c: Channel, p: Parsed, reply: bool, w: Option<int>)
    requires Waits(c, w) && c.mode == p.mode
    ensures Send(cfg, c, p, reply).1 <==> w == None && Concerns(cfg, p)
    ensures Waits(Send(cfg, c, p, reply).0, Awaiting(w, p, w == None && Concerns(cfg, p) && !reply))
    ensures Send(cfg, c, p, reply).0.mode == p.newMode
  {
    var own := (p.modules - {PROTO_IMI}) * cfg.pm;
    assert forall m :: m in own <==> m in p.modules && m in cfg.pm && m != 1;
    if own != {} {
      var m := Member(own);
    }
  }

  /** Line k as it is parsed in the run. */
  ghost function Command(cfg: Config, mode: int, lines: seq<string>, replies: nat -> bool, k: nat): Parsed
    requires k < |lines|
  {
    ParseCmd(cfg, Replay(cfg, mode, lines[..k], replies).0.chan.mode, lines[k])
  }

  /** The type of the section in front of line k: the last type stamped on a parsed line. */
  function SectionType(rs: seq<Record>, k: nat): Option<int>
    requires k <= |rs|
  {
    if k == 0 then None else if rs[k - 1].stamp.Some? then rs[k - 1].stamp else SectionType(rs, k - 1)
  }

  /** Line k is the first of a section. */
  ghost predicate Begins(cfg: Config, mode: int, lines: seq<string>, replies: nat -> bool, k: nat)
    requires k < |lines|
  {
    var p := Command(cfg, mode, lines, replies, k);
    p.ok && p.dtype.Some? && p.dtype != SectionType(Replay(cfg, mode, lines, replies).1, k)
  }

  /** Whether a type is one IMI holds: the first entry of the sequencer table with that type says so. */
  predicate HeldType(table: seq<SeqEntry>, d: int) {
    exists i | 0 <= i < |table| :: table[i] == SeqEntry(d, true) && forall j | 0 <= j < i :: table[j].dtype != d
  }

  lemma HeldTypeIs(table: seq<SeqEntry>, d: int)
    ensures HeldType(table, d) <==> IsImi(table, IndexOf(table, d))
  {
    var i := IndexOf(table, d);
    if HeldType(table, d) {
      var j :| 0 <= j < |table| && table[j] == SeqEntry(d, true) && forall n | 0 <= n < j :: table[n].dtype != d;
      assert i == j;
    } else if i >= 0 {
      assert table[i].dtype == d;
    }
  }

  /** Line k gets lines sent again whatever mode is awaited: it is parsed in CONFIG_MODE or begins a section that is
      passed on. */
  ghost predicate Reopens(cfg: Config, mode: int, lines: seq<string>, replies: nat -> bool, k: nat)
    requires k < |lines|
  {
    var p := Command(cfg, mode, lines, replies, k);
    p.ok && (p.mode == 5 || (Begins(cfg, mode, lines, replies, k) && !HeldType(cfg.table, p.dtype.value)))
  }

  /** The mode awaited in front of line k. */
  ghost function AwaitedAt(cfg: Config, mode: int, lines: seq<string>, replies: nat -> bool, k: nat): Option<int>
    requires k <= |lines|
  {
    if k == 0 then None
    else
      var p, rec := Command(cfg, mode, lines, replies, k - 1), Replay(cfg, mode, lines, replies).1[k - 1];
      var w := if Reopens(cfg, mode, lines, replies, k - 1) then None
               else AwaitedAt(cfg, mode, lines, replies, k - 1);
      if rec.passed then Awaiting(w, p, rec.sent && !replies(k - 1))
      else if w.Some? && rec.blocks != [] then Some(p.mode)
      else w
  }

  /** One line of a run is one step of the loop, and its record stays. */
  lemma StepAt(cfg: Config, mode: int, lines: seq<string>, replies: nat -> bool, k: nat)
    requires k < |lines|
    ensures var (s, _) := Replay(cfg, mode, lines[..k], replies);
            && Replay(cfg, mode, lines[..k + 1], replies).0 == StepLine(cfg, s, lines[k], replies(k)).0
            && Replay(cfg, mode, lines, replies).1[k] == StepLine(cfg, s, lines[k], replies(k)).1
  {
    hide StepLine;
    ReplayPrefix(cfg, mode, lines, replies, k + 1);
    assert lines[..k + 1][..k] == lines[..k] && lines[..k + 1][k] == lines[k];
    assert Replay(cfg, mode, lines, replies).1[k] == Replay(cfg, mode, lines, replies).1[..k + 1][k];
  }

  /** How the section types of a state follow from the last type seen. */
  ghost predicate InSection(cfg: Config, s: State, d: Option<int>) {
    && s.skip == (if d.Some? && HeldType(cfg.table, d.value) then d else None)
    && s.copy == (if d.Some? && !HeldType(cfg.table, d.value) then d else None)
  }

  /** What becomes of a line, in terms of the last type seen and the awaited mode. */
  ghost predicate Handled(cfg: Config, s: State, p: Parsed, reply: bool, d: Option<int>, w: Option<int>, s2: State,
                          rec: Record)
  {
    var begins := p.ok && p.dtype.Some? && p.dtype != d;
    var w1 := if p.ok && (p.mode == 5 || (begins && !HeldType(cfg.table, p.dtype.value))) then None else w;
    && rec.stamp == (if p.ok then p.dtype else None)
    && (rec.passed <==> p.ok && if p.dtype.Some? then !HeldType(cfg.table, p.dtype.value)
                                else (d.Some? && !HeldType(cfg.table, d.value)) || exists m :: m in p.modules && m != 1)
    && (rec.sent <==> rec.passed && w1 == None && Concerns(cfg, p))
    && s2.chan.mode == (if rec.passed then p.newMode else p.mode)
    && InSection(cfg, s2, if rec.stamp.Some? then rec.stamp else d)
    && Waits(s2.chan, if rec.passed then Awaiting(w1, p, rec.sent && !reply)
                      else if w1.Some? && rec.blocks != [] then Some(p.mode) else w1)
  }

  lemma SectionHandled(cfg: Config, s: State, p: Parsed, reply: bool, w: Option<int>)
    requires p.dtype.Some? && Waits(s.chan, w) && s.chan.mode == p.mode
    ensures var (s2, rec) := Section(cfg, s, p, reply);
            var held := HeldType(cfg.table, p.dtype.value);
            && rec.stamp == p.dtype && rec.passed == !held && InSection(cfg, s2, p.dtype)
            && (held ==> !rec.sent && s2.chan.mode == p.mode
                         && Waits(s2.chan, if w.Some? && rec.blocks != [] then Some(p.mode) else w))
            && (!held ==> (rec.sent <==> Concerns(cfg, p)) && s2.chan.mode == p.newMode
                          && Waits(s2.chan, Awaiting(None, p, rec.sent && !reply)))
  {
    hide Send, HeldType;
    var ix := IndexOf(cfg.table, p.dtype.value);
    HeldTypeIs(cfg.table, p.dtype.value);
    if IsImi(cfg.table, ix) {
      ImiIndicesAre(cfg.table, s.next, ix + 1);
    } else {
      SendIs(cfg, Channel(p.mode, true, if s.next <= ix then p.mode else s.chan.prevMode), p, reply, None);
    }
  }

  lemma LineHandled(cfg: Config, s: State, text: string, reply: bool, d: Option<int>, w: Option<int>)
    requires InSection(cfg, s, d) && Waits(s.chan, w)
    ensures var (s2, rec) := StepLine(cfg, s, text, reply);
            Handled(cfg, s, ParseCmd(cfg, s.chan.mode, text), reply, d, w, s2, rec)
  {
    hide ParseCmd, Send, HeldType;
    var p := ParseCmd(cfg, s.chan.mode, text);
    if p.ok {
      var w1 := if p.mode == CONFIG_MODE then None else w;
      var c := Channel(p.mode, s.chan.open || p.mode == CONFIG_MODE, s.chan.prevMode);
      SendIs(cfg, c, p, reply, w1);
      var others := p.modules - {PROTO_IMI};
      assert forall m :: m in others <==> m in p.modules && m != 1;
      if others != {} {
        var m := Member(others);
      }
      if p.dtype.Some? && p.dtype != d {
        SectionHandled(cfg, s.(chan := c), p, reply, w1);
      }
    }
  }

  /** What the state in front of a line keeps of the lines before it. */
  ghost predicate Follows(cfg: Config, mode: int, lines: seq<string>, replies: nat -> bool, k: nat)
    requires k <= |lines|
  {
    var (s, rs) := Replay(cfg, mode, lines[..k], replies);
    && InSection(cfg, s, SectionType(Replay(cfg, mode, lines, replies).1, k))
    && Waits(s.chan, AwaitedAt(cfg, mode, lines, replies, k))
  }

  lemma {:induction false} RunFollows(cfg: Config, mode: int, lines: seq<string>, replies: nat -> bool, k: nat)
    requires k <= |lines|
    ensures Follows(cfg, mode, lines, replies, k)
  {
    hide HeldType, Awaiting, StepLine, ParseCmd, Concerns;
    if k > 0 {
      RunFollows(cfg, mode, lines, replies, k - 1);
      StepAt(cfg, mode, lines, replies, k - 1);
      LineHandled(cfg, Replay(cfg, mode, lines[..k - 1], replies).0, lines[k - 1], replies(k - 1),
                  SectionType(Replay(cfg, mode, lines, replies).1, k - 1),
                  AwaitedAt(cfg, mode, lines, replies, k - 1));
    }
  }

  /** What becomes of line k of any run. Its stamp is the type it is parsed to. It is passed on exactly if its type is
      not IMI-held or, having none, if the section's type is not or it belongs to another module than IMI. It is sent
      exactly if it is passed on, concerns the module and no mode is awaited. The mode is the parser's new one behind a
      line passed on, and else the one it was parsed in. */
  lemma LineIs(cfg: Config, mode: int, lines: seq<string>, replies: nat -> bool, k: nat)
    requires k < |lines|
    ensures var rs, p := Replay(cfg, mode, lines, replies).1, Command(cfg, mode, lines, replies, k);
            && rs[k].stamp == (if p.ok then p.dtype else None)
            && (rs[k].passed <==>
                  p.ok && if p.dtype.Some? then !HeldType(cfg.table, p.dtype.value)
                          else (SectionType(rs, k).Some? && !HeldType(cfg.table, SectionType(rs, k).value))
                               || exists m :: m in p.modules && m != 1)
            && (rs[k].sent <==>
                  && rs[k].passed && Concerns(cfg, p)
                  && (Reopens(cfg, mode, lines, replies, k) || AwaitedAt(cfg, mode, lines, replies, k) == None))
            && Replay(cfg, mode, lines[..k + 1], replies).0.chan.mode == if rs[k].passed then p.newMode else p.mode
  {
    hide HeldType, Awaiting, StepLine, ParseCmd, Concerns;
    RunFollows(cfg, mode, lines, replies, k);
    StepAt(cfg, mode, lines, replies, k);
    LineHandled(cfg, Replay(cfg, mode, lines[..k], replies).0, lines[k], replies(k),
                SectionType(Replay(cfg, mode, lines, replies).1, k), AwaitedAt(cfg, mode, lines, replies, k));
  }

  /** As long as the module carries out all it is sent, it is sent exactly the lines passed on that concern it. */
  lemma {:induction false} AllAnswered(cfg: Config, mode: int, lines: seq<string>, replies: nat -> bool, k: nat)
    requires k < |lines| && forall j | 0 <= j < k :: Replay(cfg, mode, lines, replies).1[j].sent ==> replies(j)
    ensures var rec := Replay(cfg, mode, lines, replies).1[k];
            rec.sent <==> rec.passed && Concerns(cfg, Command(cfg, mode, lines, replies, k))
  {
    hide HeldType, StepLine, ParseCmd, Concerns, Command, Replay, Reopens;
    LineIs(cfg, mode, lines, replies, k);
    NothingAwaited(cfg, mode, lines, replies, k);
  }

  lemma {:induction false} NothingAwaited(cfg: Config, mode: int, lines: seq<string>, replies: nat -> bool, k: nat)
    requires k <= |lines| && forall j | 0 <= j < k :: Replay(cfg, mode, lines, replies).1[j].sent ==> replies(j)
    ensures AwaitedAt(cfg, mode, lines, replies, k) == None
  {
    hide HeldType, StepLine, ParseCmd, Concerns, Command, Replay, Reopens;
    if k > 0 {
      NothingAwaited(cfg, mode, lines, replies, k - 1);
    }
  }

  /** Line i does not bring mode m back: it neither gets lines sent again whatever is awaited, nor leaves mode m behind
      on being passed on, nor has IMI data sent in front of it. */
  ghost predicate Withheld(cfg: Config, mode: int, lines: seq<string>, replies: nat -> bool, m: int, i: nat)
    requires i < |lines|
  {
    var rec := Replay(cfg, mode, lines, replies).1[i];
    && !Reopens(cfg, mode, lines, replies, i) && rec.blocks == []
    && (rec.passed ==> Command(cfg, mode, lines, replies, i).newMode != m)
  }

  /** Behind a line refused in mode m that would have left it nothing is sent, until the mode is m again, a line is
      parsed in CONFIG_MODE or a section begins. A refused line that stays in its mode holds nothing back. */
  lemma HeldBack(cfg: Config, mode: int, lines: seq<string>, replies: nat -> bool, k: nat, n: nat)
    requires k < n < |lines| && Replay(cfg, mode, lines, replies).1[k].sent && !replies(k)
    requires var m := Command(cfg, mode, lines, replies, k).mode;
             forall i | k < i < n :: Withheld(cfg, mode, lines, replies, m, i)
    ensures var p, rs := Command(cfg, mode, lines, replies, k), Replay(cfg, mode, lines, replies).1;
            && (p.newMode != p.mode && !Reopens(cfg, mode, lines, replies, n) ==> !rs[n].sent)
            && (p.newMode == p.mode && n == k + 1 ==>
                  (rs[n].sent <==> rs[n].passed && Concerns(cfg, Command(cfg, mode, lines, replies, n))))
  {
    hide HeldType, StepLine, ParseCmd, Concerns, Command, Replay, Reopens;
    LineIs(cfg, mode, lines, replies, k);
    LineIs(cfg, mode, lines, replies, n);
    var p := Command(cfg, mode, lines, replies, k);
    if p.newMode != p.mode {
      StillAwaited(cfg, mode, lines, replies, k, n);
    }
  }

  lemma {:induction false} StillAwaited(cfg: Config, mode: int, lines: seq<string>, replies: nat -> bool, k: nat,
                                        n: nat)
    requires k < n <= |lines| && Replay(cfg, mode, lines, replies).1[k].sent && !replies(k)
    requires var p := Command(cfg, mode, lines, replies, k);
             p.newMode != p.mode && forall i | k < i < n :: Withheld(cfg, mode, lines, replies, p.mode, i)
    ensures AwaitedAt(cfg, mode, lines, replies, n) == Some(Command(cfg, mode, lines, replies, k).mode)
  {
    hide HeldType, StepLine, ParseCmd, Concerns, Command, Replay, Reopens;
    LineIs(cfg, mode, lines, replies, n - 1);
    if n > k + 1 {
      StillAwaited(cfg, mode, lines, replies, k, n - 1);
      assert Withheld(cfg, mode, lines, replies, Command(cfg, mode, lines, replies, k).mode, n - 1);
    }
  }

  // ---- an IMI block ----

  /** The commands of a block that reach the module, from command k on. */
  function BlockSent(cfg: Config, cmds: seq<string>, k: nat, c: Channel, replies: nat -> bool): seq<string>
    requires k <= |cmds|
    decreases |cmds| - k
  {
    if k == |cmds| then []
    else
      var p := ParseCmd(cfg, c.mode, cmds[k]);
      if !p.ok then BlockSent(cfg, cmds, k + 1, c.(mode := p.mode), replies)
      else
        var (c2, sent) := Send(cfg, c.(mode := p.mode), p, replies(k));
        (if sent then [cmds[k]] else []) + BlockSent(cfg, cmds, k + 1, c2, replies)
  }

  /** The mode in front of command k of a block: a block starts in CONFIG_MODE. */
  function ModeAt(cfg: Config, cmds: seq<string>, k: nat): int
    requires k <= |cmds|
  {
    if k == 0 then 5
    else
      var p := ParseCmd(cfg, ModeAt(cfg, cmds, k - 1), cmds[k - 1]);
      if p.ok then p.newMode else p.mode
  }

  function BlockCommand(cfg: Config, cmds: seq<string>, k: nat): Parsed
    requires k < |cmds|
  {
    ParseCmd(cfg, ModeAt(cfg, cmds, k), cmds[k])
  }

  /** Command k of a block is sent: it is parsed, concerns the module, and no mode is awaited. */
  ghost predicate Goes(cfg: Config, cmds: seq<string>, replies: nat -> bool, k: nat)
    requires k < |cmds|
  {
    var p := BlockCommand(cfg, cmds, k);
    p.ok && Concerns(cfg, p) && BlockAwaits(cfg, cmds, replies, k) == None
  }

  /** The mode awaited in front of command k of a block; here no line gets commands sent again whatever is awaited. */
  ghost function BlockAwaits(cfg: Config, cmds: seq<string>, replies: nat -> bool, k: nat): Option<int>
    requires k <= |cmds|
    decreases k, 0
  {
    if k == 0 then None
    else
      var p, w := BlockCommand(cfg, cmds, k - 1), BlockAwaits(cfg, cmds, replies, k - 1);
      if p.ok then Awaiting(w, p, w == None && Concerns(cfg, p) && !replies(k - 1)) else w
  }

  /** The commands of a block from k on that go. */
  ghost function Going(cfg: Config, cmds: seq<string>, replies: nat -> bool, k: nat): seq<string>
    requires k <= |cmds|
    decreases |cmds| - k
  {
    if k == |cmds| then []
    else (if Goes(cfg, cmds, replies, k) then [cmds[k]] else []) + Going(cfg, cmds, replies, k + 1)
  }

  lemma {:induction false} RestGoes(cfg: Config, cmds: seq<string>, replies: nat -> bool, k: nat, c: Channel)
    requires k <= |cmds| && c.mode == ModeAt(cfg, cmds, k) && Waits(c, BlockAwaits(cfg, cmds, replies, k))
    ensures BlockSent(cfg, cmds, k, c, replies) == Going(cfg, cmds, replies, k)
    decreases |cmds| - k
  {
    hide ParseCmd, Send, Concerns, Awaiting;
    if k < |cmds| {
      var p := BlockCommand(cfg, cmds, k);
      var c1 := c.(mode := p.mode);
      if p.ok {
        SendIs(cfg, c1, p, replies(k), BlockAwaits(cfg, cmds, replies, k));
        RestGoes(cfg, cmds, replies, k + 1, Send(cfg, c1, p, replies(k)).0);
      } else {
        RestGoes(cfg, cmds, replies, k + 1, c1);
      }
    }
  }

  /** A block reaches the module as the commands that go, in order; if the module carries out all it is sent, these are
      exactly the parsed commands that concern it. */
  lemma BlockIs(cfg: Config, cmds: seq<string>, replies: nat -> bool)
    ensures BlockSent(cfg, cmds, 0, Channel(CONFIG_MODE, true, CONFIG_MODE), replies) == Going(cfg, cmds, replies, 0)
    ensures (forall k | 0 <= k < |cmds| :: Goes(cfg, cmds, replies, k) ==> replies(k)) ==>
              forall k | 0 <= k < |cmds| ::
                Goes(cfg, cmds, replies, k) <==>
                BlockCommand(cfg, cmds, k).ok && Concerns(cfg, BlockCommand(cfg, cmds, k))
  {
    hide ParseCmd, Send, Concerns;
    RestGoes(cfg, cmds, replies, 0, Channel(CONFIG_MODE, true, CONFIG_MODE));
    if forall k | 0 <= k < |cmds| :: Goes(cfg, cmds, replies, k) ==> replies(k) {
      forall k | 0 <= k < |cmds|
        ensures BlockAwaits(cfg, cmds, replies, k) == None
      {
        NoneAwaited(cfg, cmds, replies, k);
      }
    }
  }

  lemma {:induction false} NoneAwaited(cfg: Config, cmds: seq<string>, replies: nat -> bool, k: nat)
    requires k <= |cmds| && forall j | 0 <= j < |cmds| :: Goes(cfg, cmds, replies, j) ==> replies(j)
    ensures BlockAwaits(cfg, cmds, replies, k) == None
  {
    hide ParseCmd, Concerns;
    if k > 0 {
      NoneAwaited(cfg, cmds, replies, k - 1);
      assert Goes(cfg, cmds, replies, k - 1) ==> replies(k - 1);
    }
  }

  /** Behind a command refused in mode m that would have left it no command goes until one leaves mode m behind. */
  lemma {:induction false} BlockHeldBack(cfg: Config, cmds: seq<string>, replies: nat -> bool, k: nat, n: nat)
    requires k < n < |cmds| && Goes(cfg, cmds, replies, k) && !replies(k)
    requires BlockCommand(cfg, cmds, k).newMode != BlockCommand(cfg, cmds, k).mode
    requires forall i | k < i < n ::
               BlockCommand(cfg, cmds, i).ok ==> BlockCommand(cfg, cmds, i).newMode != BlockCommand(cfg, cmds, k).mode
    ensures !Goes(cfg, cmds, replies, n)
    ensures BlockAwaits(cfg, cmds, replies, n) == Some(BlockCommand(cfg, cmds, k).mode)
  {
    hide ParseCmd, Concerns, BlockCommand;
    if n > k + 1 {
      BlockHeldBack(cfg, cmds, replies, k, n - 1);
    }
  }

  // ---- all that reaches the module ----

  /** The commands IMI holds for the type at a sequencer index, as far as they reach the module. */
  function HeldSent(cfg: Config, ix: int, replies: nat -> bool): seq<string> {
    if 0 <= ix < |cfg.table|
    then BlockSent(cfg, cfg.held(cfg.table[ix].dtype), 0, Channel(CONFIG_MODE, true, CONFIG_MODE), replies)
    else []
  }

  /** The same of several indices; `replies` are the module's answers, index by index and command by command. */
  function BlocksSent(cfg: Config, ixs: seq<int>, replies: int -> nat -> bool): seq<string> {
    if ixs == [] then []
    else
      var n := |ixs| - 1;
      BlocksSent(cfg, ixs[..n], replies) + HeldSent(cfg, ixs[n], replies(ixs[n]))
  }

  /** One more index of IMI data on the way to index ix. */
  lemma NextBlock(cfg: Config, lo: int, i: int, ix: int, replies: int -> nat -> bool)
    requires lo <= i <= ix && IsImi(cfg.table, i)
    ensures var done, all := ImiIndices(cfg.table, lo, i), ImiIndices(cfg.table, lo, ix + 1);
            && done <= all && ImiIndices(cfg.table, lo, i + 1) == done + [i]
            && BlocksSent(cfg, done + [i], replies) == BlocksSent(cfg, done, replies) + HeldSent(cfg, i, replies(i))
            && BlocksSent(cfg, done + [i], replies) <= BlocksSent(cfg, all, replies)
  {
    IndicesJoin(cfg.table, lo, i + 1, ix + 1);
    var done := ImiIndices(cfg.table, lo, i);
    assert (done + [i])[..|done|] == done;
    BlocksBegin(cfg, done + [i], ImiIndices(cfg.table, lo, ix + 1), replies);
  }

  lemma NoneSent(cfg: Config, replies: int -> nat -> bool)
    ensures BlocksSent(cfg, [], replies) == []
  {
  }

  /** What a line of the file makes reach the module: the IMI data sent in front of it, and the line if it is sent. */
  function LineSent(cfg: Config, rec: Record, text: string, replies: int -> nat -> bool): seq<string> {
    BlocksSent(cfg, rec.blocks, replies) + if rec.sent then [text] else []
  }

  function FileSent(cfg: Config, rs: seq<Record>, lines: seq<string>, replies: int -> nat -> bool): seq<string>
    requires |rs| <= |lines|
  {
    if rs == [] then []
    else
      var n := |rs| - 1;
      FileSent(cfg, rs[..n], lines, replies) + LineSent(cfg, rs[n], lines[n], replies)
  }

  lemma {:induction false} BlocksJoin(cfg: Config, a: seq<int>, b: seq<int>, replies: int -> nat -> bool)
    ensures BlocksSent(cfg, a + b, replies) == BlocksSent(cfg, a, replies) + BlocksSent(cfg, b, replies)
    decreases |b|
  {
    hide HeldSent;
    if b == [] {
      assert a + b == a;
    } else {
      var n := |b| - 1;
      assert (a + b)[..|a + b| - 1] == a + b[..n];
      BlocksJoin(cfg, a, b[..n], replies);
    }
  }

  lemma BlocksBegin(cfg: Config, a: seq<int>, b: seq<int>, replies: int -> nat -> bool)
    requires a <= b
    ensures BlocksSent(cfg, a, replies) <= BlocksSent(cfg, b, replies)
  {
    BlocksJoin(cfg, a, b[|a|..], replies);
    assert b == a + b[|a|..];
  }

  /** Whether the module carried a line out. */
  function Answered(replies: nat -> Reply): nat -> bool {
    (n: nat) => replies(n) == Done
  }

  function Answers(replies: int -> nat -> Reply): int -> nat -> bool {
    (ix: int) => Answered(replies(ix))
  }

  /** The server entry's line: the file line being worked on and the state of the channel to the module. */
  class Replayer {
    const cfg: Config
    /** All that was sent to the module. */
    var wire: seq<string>
    var text: string
    var mode: int
    var open: bool
    var prevMode: int
    var skip: Option<int>
    var copy: Option<int>
    var curIndex: int

    function Chan(): Channel
      reads this
    {
      Channel(mode, open, prevMode)
    }

    function Abs(): State
      reads this
    {
      State(Chan(), skip, copy, curIndex)
    }

    constructor (config: Config, startMode: int)
      ensures cfg == config && Abs() == Start(startMode) && wire == []
    {
      cfg := config;
      text, wire := "", [];
      mode, open, prevMode := startMode, true, startMode;
      skip, copy, curIndex := None, None, 0;
    }

    /** _imi_server_parse_config_cmd */
    method ParseConfigCmd() returns (p: Parsed)
      modifies this`mode
      ensures p == ParseCmd(cfg, old(mode), text) && mode == p.mode
    {
      var r := cfg.parse(mode, text);
      if r.Failure? {
        mode := CONFIG_MODE;
        r := cfg.parse(mode, text);
      }
      match r {
        case Success(d, m, mods) => return Parsed(mode, true, d, Or(m, mode), mods);
        case _ => return Parsed(mode, false, None, mode, {});
      }
    }

    /** _imi_server_send_config_cmd */
    method SendConfigCmd(p: Parsed, reply: Reply) returns (sent: bool, ok: bool)
      modifies this`mode, this`open, this`prevMode, this`wire
      ensures ok <==> !(reply == Lost && Send(cfg, old(Chan()), p, true).1)
      ensures ok ==> (Chan(), sent) == Send(cfg, old(Chan()), p, reply == Done)
      ensures wire == old(wire) + if ok && sent then [text] else []
    {
      sent, ok := false, true;
      if (p.modules - {PROTO_IMI}) * cfg.pm != {} && open {
        if reply == Lost {
          ok := false;
          return;
        }
        sent := true;
        wire := wire + [text];
        if reply == Refused {
          open := false;
          prevMode := mode;
        }
      }
      mode := p.newMode;
      if p.newMode == prevMode {
        open := true;
      }
    }

    /** Command k of a block. */
    method SendHeld(cmds: seq<string>, k: nat, replies: nat -> Reply) returns (ok: bool)
      requires k < |cmds|
      modifies this`text, this`mode, this`open, this`prevMode, this`wire
      ensures ok ==> old(wire) + BlockSent(cfg, cmds, k, old(Chan()), Answered(replies))
                     == wire + BlockSent(cfg, cmds, k + 1, Chan(), Answered(replies))
      ensures if ok then old(wire) <= wire else wire == old(wire)
    {
      text := cmds[k];
      var p := ParseConfigCmd();
      ok := true;
      if p.ok {
        var sent;
        sent, ok := SendConfigCmd(p, replies(k));
      }
    }

    /** _imi_server_send_imi_config_cmds: works on the same line and puts the file line and its mode back. */
    method SendImiConfigCmds(ix: nat, replies: nat -> Reply) returns (ok: bool)
      requires ix < |cfg.table|
      modifies this`text, this`mode, this`open, this`prevMode, this`wire
      ensures text == old(text) && Chan() == old(Chan())
      ensures ok ==> wire == old(wire) + HeldSent(cfg, ix, Answered(replies))
      ensures old(wire) <= wire <= old(wire) + HeldSent(cfg, ix, Answered(replies))
    {
      var savedText, savedMode, savedOpen, savedPrev := text, mode, open, prevMode;
      mode, open, prevMode := CONFIG_MODE, true, CONFIG_MODE;
      var cmds := cfg.held(cfg.table[ix].dtype);
      ok := true;
      ghost var all := HeldSent(cfg, ix, Answered(replies));
      for k := 0 to |cmds|
        invariant ok && wire + BlockSent(cfg, cmds, k, Chan(), Answered(replies)) == old(wire) + all
        invariant old(wire) <= wire
      {
        ok := SendHeld(cmds, k, replies);
        if !ok {
          break;
        }
      }
      text, mode, open, prevMode := savedText, savedMode, savedOpen, savedPrev;
    }

    /** The sequencer catches up with a new type; `blocks` are the indices of the IMI data sent completely. */
    method CatchUp(ix: int, replies: int -> nat -> Reply) returns (blocks: seq<int>, ok: bool)
      modifies this`text, this`mode, this`open, this`prevMode, this`curIndex, this`wire
      ensures text == old(text) && mode == old(mode) && open == old(open)
      ensures blocks <= ImiIndices(cfg.table, old(curIndex), ix + 1)
      ensures ok ==> blocks == ImiIndices(cfg.table, old(curIndex), ix + 1)
      ensures ok ==> curIndex == (if old(curIndex) <= ix then ix + 1 else old(curIndex))
      ensures ok ==> prevMode == (if old(curIndex) <= ix then mode else old(prevMode))
      ensures ok ==> wire == old(wire) + BlocksSent(cfg, blocks, Answers(replies))
      ensures var all := BlocksSent(cfg, ImiIndices(cfg.table, old(curIndex), ix + 1), Answers(replies));
              old(wire) <= wire <= old(wire) + all
    {
      hide BlocksSent, HeldSent, Answered;
      NoneSent(cfg, Answers(replies));
      blocks, ok := [], true;
      ghost var lo := curIndex;
      while curIndex <= ix
        invariant ok && lo <= curIndex && (curIndex <= ix + 1 || curIndex == lo)
        invariant text == old(text) && mode == old(mode) && open == old(open)
        invariant prevMode == if curIndex > lo then mode else old(prevMode)
        invariant blocks == ImiIndices(cfg.table, lo, curIndex)
        invariant wire == old(wire) + BlocksSent(cfg, blocks, Answers(replies))
      {
        if 0 <= curIndex < |cfg.table| && cfg.table[curIndex].imi {
          ok := SendImiConfigCmds(curIndex, replies(curIndex));
          NextBlock(cfg, lo, curIndex, ix, Answers(replies));
          if !ok {
            return;
          }
          blocks := blocks + [curIndex];
        }
        curIndex := curIndex + 1;
        prevMode := mode;
      }
    }

    /** The body of the file loop, the line being in `text`. When the connection is lost, `rec` lists the IMI blocks
        that had gone out. */
    method HandleLine(reply: Reply, replies: int -> nat -> Reply) returns (rec: Record, ok: bool)
      modifies this
      ensures ok ==> (Abs(), rec) == StepLine(cfg, old(Abs()), old(text), reply == Done)
      ensures rec.blocks <= StepLine(cfg, old(Abs()), old(text), reply == Done).1.blocks
      ensures var all := LineSent(cfg, StepLine(cfg, old(Abs()), old(text), reply == Done).1, old(text),
                                  Answers(replies));
              old(wire) <= wire <= old(wire) + all && (ok ==> wire == old(wire) + all)
    {
      hide BlocksSent, ParseCmd, Send, Section, Answered, Answers;
      ok := true;
      var p := ParseConfigCmd();
      if !p.ok {
        NoneSent(cfg, Answers(replies));
        return SKIPPED, true;
      }
      if mode == CONFIG_MODE {
        open := true;
      }
      if p.dtype.Some? && skip == p.dtype {
        NoneSent(cfg, Answers(replies));
        return Record(p.dtype, [], false, false), true;
      }
      var sent;
      if copy.Some? && (copy == p.dtype || p.dtype.None?) {
        NoneSent(cfg, Answers(replies));
        sent, ok := SendConfigCmd(p, reply);
        return Record(p.dtype, [], true, sent), ok;
      }
      if p.dtype.None? {
        NoneSent(cfg, Answers(replies));
        if p.modules <= {PROTO_IMI} {
          return SKIPPED, true;
        }
        sent, ok := SendConfigCmd(p, reply);
        return Record(None, [], true, sent), ok;
      }
      rec, ok := StartSection(p, reply, replies);
    }

    method StartSection(p: Parsed, reply: Reply, replies: int -> nat -> Reply) returns (rec: Record, ok: bool)
      requires p.dtype.Some?
      modifies this
      ensures ok ==> (Abs(), rec) == Section(cfg, old(Abs()), p, reply == Done)
      ensures rec.blocks <= Section(cfg, old(Abs()), p, reply == Done).1.blocks
      ensures var all := LineSent(cfg, Section(cfg, old(Abs()), p, reply == Done).1, old(text), Answers(replies));
              old(wire) <= wire <= old(wire) + all && (ok ==> wire == old(wire) + all)
    {
      hide BlocksSent, Send, ImiIndices, Answered, Answers;
      skip, copy := None, None;
      var ix := IndexOf(cfg.table, p.dtype.value);
      var blocks;
      blocks, ok := CatchUp(ix, replies);
      if !ok || (0 <= ix < |cfg.table| && cfg.table[ix].imi) {
        skip := p.dtype;
        return Record(p.dtype, blocks, false, false), ok;
      }
      copy := p.dtype;
      open := true;
      var sent;
      sent, ok := SendConfigCmd(p, reply);
      return Record(p.dtype, blocks, true, sent), ok;
    }

    /** _imi_server_send_config_to_pm: `done` says whether the whole file was read; a lost connection ends the replay,
        and then `last` lists the IMI blocks that had gone out for the line being handled. What reached the module is
        what the records say, up to the loss. */
    method SendConfigToPm(lines: seq<string>, replies: nat -> Reply, blockReplies: int -> nat -> Reply)
      returns (rs: seq<Record>, last: seq<int>, done: bool)
      modifies this
      requires Abs() == Start(mode) && wire == []
      ensures if done then (Abs(), rs) == Replay(cfg, old(mode), lines, Answered(replies)) && last == []
                           && wire == FileSent(cfg, rs, lines, Answers(blockReplies))
              else |rs| < |lines| && rs == Replay(cfg, old(mode), lines[..|rs|], Answered(replies)).1
                   && last <= Replay(cfg, old(mode), lines[..|rs| + 1], Answered(replies)).1[|rs|].blocks
                   && FileSent(cfg, rs, lines, Answers(blockReplies)) <= wire
                   && wire <= FileSent(cfg, Replay(cfg, old(mode), lines[..|rs| + 1], Answered(replies)).1, lines,
                                       Answers(blockReplies))
    {
      hide StepLine, LineSent;
      rs, last := [], [];
      for k := 0 to |lines|
        invariant last == [] && (Abs(), rs) == Replay(cfg, old(mode), lines[..k], Answered(replies))
        invariant wire == FileSent(cfg, rs, lines, Answers(blockReplies))
      {
        assert lines[..k + 1][..k] == lines[..k];
        text := lines[k];
        ghost var next := Replay(cfg, old(mode), lines[..k + 1], Answered(replies)).1;
        assert next[..k] == rs;
        var rec, ok := HandleLine(replies(k), blockReplies);
        if !ok {
          return rs, rec.blocks, false;
        }
        rs := rs + [rec];
      }
      assert lines[..|lines|] == lines;
      done := true;
    }
  }
}
