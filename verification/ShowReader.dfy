/** Reading a module's show output in arbitrary pieces and passing it on line by line (imi_cli.c). */
module ShowReader {
  import opened Octets

  const NEWLINE: u8 := 10

  /** The newline-terminated lines of a stream, and what follows the last newline. */
  function Lines(s: bytes): seq<bytes> {
    if s == [] then []
    else
      var n := |s| - 1;
      if s[n] == NEWLINE then Lines(s[..n]) + [Tail(s[..n])] else Lines(s[..n])
  }

  function Tail(s: bytes): (t: bytes)
    ensures |t| <= |s| && NEWLINE !in t
  {
    if s == [] then []
    else
      var n := |s| - 1;
      if s[n] == NEWLINE then [] else Tail(s[..n]) + [s[n]]
  }

  /** What the output function sees of each line. */
  function Shown(ls: seq<bytes>): (r: seq<bytes>)
    ensures |r| == |ls| && forall i | 0 <= i < |ls| :: r[i] == CStr(ls[i])
  {
    seq(|ls|, i requires 0 <= i < |ls| => CStr(ls[i]))
  }

  /** Every line followed by its newline, then the unterminated rest. */
  function Joined(ls: seq<bytes>, tail: bytes): bytes {
    if ls == [] then tail else ls[0] + [NEWLINE] + Joined(ls[1..], tail)
  }

  /** The lines before the first one that does not leave room for its newline in a buffer of `size` octets. */
  function Fitting(ls: seq<bytes>, size: nat): (r: seq<bytes>)
    ensures r <= ls
    ensures r == ls <==> forall i | 0 <= i < |ls| :: |ls[i]| < size
  {
    if ls == [] || |ls[0]| >= size then [] else [ls[0]] + Fitting(ls[1..], size)
  }

  lemma {:induction false} JoinedMore(ls: seq<bytes>, line: bytes, tail: bytes)
    ensures Joined(ls + [line], tail) == Joined(ls, line + [NEWLINE] + tail)
  {
    if ls == [] {
      assert ls + [line] == [line] && [line][1..] == [];
    } else {
      assert (ls + [line])[1..] == ls[1..] + [line];
      JoinedMore(ls[1..], line, tail);
    }
  }

  lemma {:induction false} JoinedTail(ls: seq<bytes>, tail: bytes, c: u8)
    ensures Joined(ls, tail + [c]) == Joined(ls, tail) + [c]
  {
    if ls != [] {
      JoinedTail(ls[1..], tail, c);
    }
  }

  /** Lines and Tail lose nothing, invent nothing and keep the order: they are a splitting of the stream. */
  lemma {:induction false} LinesSplit(s: bytes)
    ensures Joined(Lines(s), Tail(s)) == s
    ensures forall i | 0 <= i < |Lines(s)| :: NEWLINE !in Lines(s)[i]
  {
    if s != [] {
      var n := |s| - 1;
      LinesSplit(s[..n]);
      assert s[..n] + [s[n]] == s;
      if s[n] == NEWLINE {
        JoinedMore(Lines(s[..n]), Tail(s[..n]), []);
        assert Tail(s[..n]) + [NEWLINE] + [] == Tail(s[..n]) + [NEWLINE];
      }
      JoinedTail(Lines(s[..n]), Tail(s[..n]), s[n]);
    }
  }

  /** After a complete line the reading starts afresh. */
  lemma {:induction false} LinesConcat(a: bytes, b: bytes)
    requires Tail(a) == []
    ensures Lines(a + b) == Lines(a) + Lines(b) && Tail(a + b) == Tail(b)
  {
    if b == [] {
      assert a + b == a;
    } else {
      var n := |b| - 1;
      LinesConcat(a, b[..n]);
      var ab := a + b;
      assert ab[..|a| + n] == a + b[..n] && ab[|a| + n] == b[n];
      if b[n] == NEWLINE {
        assert Lines(a) + Lines(b[..n]) + [Tail(b[..n])] == Lines(a) + (Lines(b[..n]) + [Tail(b[..n])]);
      }
    }
  }

  lemma {:induction false} ChunkLines(s: bytes)
    ensures forall i | 0 <= i < |Lines(s)| :: |Lines(s)[i]| < |s|
  {
    if s != [] {
      ChunkLines(s[..|s| - 1]);
    }
  }

  lemma {:induction false} OnlyTail(s: bytes)
    requires NEWLINE !in s
    ensures Lines(s) == [] && Tail(s) == s
  {
    if s != [] {
      OnlyTail(s[..|s| - 1]);
    }
  }

  /** A full buffer without a newline in it: the next line, if it is ever completed, does not fit. */
  lemma {:induction false} NextIsLonger(a: bytes, b: bytes)
    requires NEWLINE !in a
    ensures Lines(a + b) != [] ==> |Lines(a + b)[0]| >= |a|
    ensures Lines(a + b) == [] ==> |Tail(a + b)| >= |a|
  {
    if b == [] {
      assert a + b == a;
      OnlyTail(a);
    } else {
      var n := |b| - 1;
      NextIsLonger(a, b[..n]);
      assert (a + b)[..|a| + n] == a + b[..n];
    }
  }

  lemma {:induction false} FittingConcat(a: seq<bytes>, b: seq<bytes>, size: nat)
    requires Fitting(a, size) == a
    ensures Fitting(a + b, size) == a + Fitting(b, size)
  {
    if a == [] {
      assert a + b == b;
    } else {
      assert (a + b)[1..] == a[1..] + b;
      assert Fitting(a[1..], size) == a[1..];
      FittingConcat(a[1..], b, size);
    }
  }

  lemma ShownConcat(a: seq<bytes>, b: seq<bytes>)
    ensures Shown(a + b) == Shown(a) + Shown(b)
  {
  }

  lemma {:induction false} CStrWhole(line: bytes)
    requires 0 !in line
    ensures CStr(line) == line
  {
    if line != [] {
      CStrWhole(line[1..]);
    }
  }

  lemma {:induction false} NoNul(s: bytes)
    requires 0 !in s
    ensures 0 !in Tail(s) && forall i | 0 <= i < |Lines(s)| :: 0 !in Lines(s)[i]
  {
    if s != [] {
      NoNul(s[..|s| - 1]);
    }
  }

  /** Which lines come out, for a stream without NUL: all of them, unchanged, exactly when each is shorter than the
      buffer; otherwise those before the first that is not. */
  lemma ShownExactly(source: bytes, size: nat)
    requires 0 !in source
    ensures Shown(Fitting(Lines(source), size)) == Fitting(Lines(source), size)
    ensures Shown(Fitting(Lines(source), size)) == Lines(source) <==>
            forall i | 0 <= i < |Lines(source)| :: |Lines(source)[i]| < size
  {
    var ls := Lines(source);
    var fit := Fitting(ls, size);
    NoNul(source);
    forall i | 0 <= i < |fit|
      ensures CStr(fit[i]) == fit[i]
    {
      assert fit[i] == ls[i];
      CStrWhole(fit[i]);
    }
    assert Shown(fit) == fit;
  }

  lemma CStrInBuffer(line: bytes, rest: bytes)
    requires rest != [] && rest[0] == 0
    ensures CStr(line + rest) == CStr(line)
  {
    if line == [] {
      assert line + rest == rest;
    } else if line[0] != 0 {
      assert (line + rest)[1..] == line[1..] + rest;
      CStrInBuffer(line[1..], rest);
    }
  }

  function Least(a: nat, b: nat): nat {
    if a < b then a else b
  }

  /** Where a read loop stands: the complete lines it has read (all short enough) have been printed, and it keeps
      an unfinished one. */
  ghost predicate Loop(base: bytes, kept: bytes, out: seq<bytes>, size: nat) {
    |kept| <= size && Tail(base) == [] && NEWLINE !in kept &&
    Lines(base) == Fitting(Lines(base), size) && out == Shown(Lines(base))
  }

  /** An unfinished line completes nothing. */
  lemma Settled(base: bytes, kept: bytes)
    requires Tail(base) == [] && NEWLINE !in kept
    ensures Lines(base + kept) == Lines(base)
  {
    OnlyTail(kept);
    LinesConcat(base, kept);
    assert Lines(base) + [] == Lines(base);
  }

  /** One round: the buffer, now holding `chunk`, is scanned up to its unfinished line. */
  lemma LoopStep(base: bytes, kept: bytes, out: seq<bytes>, size: nat, chunk: bytes, head: bytes)
    requires Loop(base, kept, out, size) && |chunk| <= size && chunk == head + Tail(chunk) && Tail(head) == []
    ensures Loop(base + head, Tail(chunk), out + Shown(Lines(chunk)), size)
  {
    Settled(head, Tail(chunk));
    LinesConcat(base, head);
    ChunkLines(chunk);
    FittingConcat(Lines(base), Lines(chunk), size);
    ShownConcat(Lines(base), Lines(chunk));
  }

  /** A stream without its tail ends in a complete line, and the tail is its last octets. */
  lemma {:induction false} Base(s: bytes)
    ensures s == s[..|s| - |Tail(s)|] + Tail(s) && Tail(s[..|s| - |Tail(s)|]) == []
  {
    if s != [] {
      var n := |s| - 1;
      Base(s[..n]);
      if s[n] == NEWLINE {
        assert s[..|s|] == s && s == s + [];
      } else {
        var m := |s| - |Tail(s)|;
        assert s[..n][..m] == s[..m];
        assert s == s[..n] + [s[n]];
      }
    }
  }

  /** When the buffer is full of one unfinished line, or the stream is exhausted, what was printed is final. */
  lemma LoopEnd(base: bytes, kept: bytes, rest: bytes, out: seq<bytes>, size: nat)
    requires Loop(base, kept, out, size) && (rest == [] || |kept| == size)
    ensures out == Shown(Fitting(Lines(base + (kept + rest)), size))
  {
    LinesConcat(base, kept + rest);
    NextIsLonger(kept, rest);
    if rest == [] {
      assert kept + rest == kept;
      OnlyTail(kept);
    }
    FittingConcat(Lines(base), Lines(kept + rest), size);
    assert Lines(base) + [] == Lines(base);
  }

  lemma Regrouped(source: bytes, base: bytes, kept: bytes, pos: nat, n: nat, head: bytes, tail: bytes)
    requires pos + n <= |source| && source[..pos] == base + kept && kept + source[pos..pos + n] == head + tail
    ensures source[..pos + n] == base + head + tail
  {
    assert source[..pos + n] == base + kept + source[pos..pos + n];
    assert base + kept + source[pos..pos + n] == base + (kept + source[pos..pos + n]);
    assert base + (head + tail) == base + head + tail;
  }

  /** A round in terms of the whole stream: the part of it that is settled grows by `head`. */
  lemma Rounded(source: bytes, base: bytes, kept: bytes, out: seq<bytes>, size: nat, pos: nat, n: nat)
    returns (head: bytes)
    requires Loop(base, kept, out, size) && pos + n <= |source| && source[..pos] == base + kept && |kept| + n <= size
    ensures Loop(base + head, Tail(kept + source[pos..pos + n]), out + Shown(Lines(kept + source[pos..pos + n])), size)
    ensures source[..pos + n] == base + head + Tail(kept + source[pos..pos + n])
  {
    var chunk := kept + source[pos..pos + n];
    Base(chunk);
    head := chunk[..|chunk| - |Tail(chunk)|];
    LoopStep(base, kept, out, size, chunk, head);
    Regrouped(source, base, kept, pos, n, head, Tail(chunk));
  }

  lemma Whole(source: bytes, base: bytes, kept: bytes, pos: nat)
    requires pos <= |source| && source[..pos] == base + kept
    ensures base + (kept + source[pos..]) == source
  {
    assert source == source[..pos] + source[pos..];
  }

  lemma NoOctets(c: bytes)
    ensures Lines(c[..0]) == [] && Tail(c[..0]) == [] && Shown([]) == []
  {
  }

  lemma NextOctet(c: bytes, i: nat)
    requires i < |c|
    ensures Tail(c[..i + 1]) == if c[i] == NEWLINE then [] else Tail(c[..i]) + [c[i]]
    ensures Lines(c[..i + 1]) == if c[i] == NEWLINE then Lines(c[..i]) + [Tail(c[..i])] else Lines(c[..i])
  {
    assert c[..i + 1][..i] == c[..i];
  }

  /** The shared buffer of imi_show_protocol. */
  class Buffer {
    const buf: array<u8>

    constructor (size: nat)
      ensures buf.Length == size && fresh(buf)
    {
      buf := new u8[size];
    }

    /** A read puts the next n octets of the stream behind the `left` octets kept. */
    method Receive(source: bytes, pos: nat, left: nat, n: nat)
      requires pos + n <= |source| && left + n <= buf.Length
      modifies buf
      ensures buf[..left + n] == old(buf[..left]) + source[pos..pos + n]
    {
      forall i | 0 <= i < n {
        buf[left + i] := source[pos + i];
      }
      assert buf[..left] == old(buf[..left]);
      assert buf[left..left + n] == source[pos..pos + n];
    }

    /** The newline at ptr becomes the terminator of the string that starts at `start`. */
    method Terminate(start: nat, ptr: nat) returns (line: bytes)
      requires start <= ptr < buf.Length
      modifies buf
      ensures line == CStr(old(buf[start..ptr]))
      ensures forall i | 0 <= i < buf.Length && i != ptr :: buf[i] == old(buf[i])
    {
      buf[ptr] := 0;
      assert buf[start..] == old(buf[start..ptr]) + buf[ptr..];
      CStrInBuffer(old(buf[start..ptr]), buf[ptr..]);
      line := CStr(buf[start..]);
    }

    /** The scan of buf[..end] for newlines; complete lines are shown. Returns where the unfinished line starts. */
    method Scan(end: nat) returns (start: nat, out: seq<bytes>)
      requires end <= buf.Length
      modifies buf
      ensures start <= end && buf[start..end] == Tail(old(buf[..end])) && out == Shown(Lines(old(buf[..end])))
    {
      hide Shown, Lines, Tail;
      ghost var c := buf[..end];
      start, out := 0, [];
      NoOctets(c);
      var ptr := 0;
      while ptr < end
        invariant start <= ptr <= end && |Tail(c[..ptr])| == ptr - start
        invariant forall i | start <= i < end :: buf[i] == c[i]
        invariant forall i | start <= i < ptr :: c[i] == Tail(c[..ptr])[i - start]
        invariant out == Shown(Lines(c[..ptr]))
      {
        NextOctet(c, ptr);
        if buf[ptr] == NEWLINE {
          assert buf[start..ptr] == Tail(c[..ptr]);
          var line := Terminate(start, ptr);
          ShownConcat(Lines(c[..ptr]), [Tail(c[..ptr])]);
          out := out + [line];
          start := ptr + 1;
        }
        ptr := ptr + 1;
      }
      assert c[..ptr] == c;
    }

    /** The unfinished line moves to the front. */
    method MoveDown(start: nat, end: nat)
      requires start <= end <= buf.Length
      modifies buf
      ensures buf[..end - start] == old(buf[start..end])
    {
      ghost var was := buf[start..end];
      forall i | 0 <= i < end - start {
        buf[i] := buf[start + i];
      }
      assert forall i | 0 <= i < end - start :: buf[i] == was[i];
    }

    /** One turn of the read loop. */
    method Round(source: bytes, pos: nat, left: nat, n: nat) returns (kept: nat, lines: seq<bytes>)
      requires pos + n <= |source| && left + n <= buf.Length
      modifies buf
      ensures kept <= buf.Length && buf[..kept] == Tail(old(buf[..left]) + source[pos..pos + n])
      ensures lines == Shown(Lines(old(buf[..left]) + source[pos..pos + n]))
    {
      Receive(source, pos, left, n);
      var start;
      start, lines := Scan(left + n);
      MoveDown(start, left + n);
      kept := left + n - start;
    }

    /** The read loop. `size(pos)` is how much a read at that point would like to deliver: at least one octet arrives
        while the stream lasts and there is room, and never more than there is room for. However the reads are cut,
        the same lines come out. */
    method ShowProtocol(source: bytes, size: nat -> nat) returns (out: seq<bytes>)
      modifies buf
      ensures out == Shown(Fitting(Lines(source), buf.Length))
    {
      out := [];
      var pos: nat, left: nat := 0, 0;
      ghost var base: bytes := [];
      while pos < |source| && left < buf.Length
        invariant pos <= |source| && left <= buf.Length
        invariant Loop(base, buf[..left], out, buf.Length) && source[..pos] == base + buf[..left]
        decreases |source| - pos
      {
        var n := Least(Least(if size(pos) == 0 then 1 else size(pos), buf.Length - left), |source| - pos);
        ghost var kept := buf[..left];
        ghost var head := Rounded(source, base, kept, out, buf.Length, pos, n);
        var lines;
        left, lines := Round(source, pos, left, n);
        out := out + lines;
        pos := pos + n;
        base := base + head;
      }
      LoopEnd(base, buf[..left], source[pos..], out, buf.Length);
      Whole(source, base, buf[..left], pos);
    }
  }
}
