/** The N393 status counters that drive the operational state at both ends,
    and the history specification they refine. */
module Hysteresis {
  import opened Octets

  /** What the counters are told: a poll went unanswered, or a message was accepted. */
  datatype Obs = Miss | Accept

  datatype End = UniC | UniN

  /** elmi_operational_state, current_status_counter (s8) and rcnt_success_oper_cnt (u8). */
  datatype Health = Health(up: bool, status: int, recent: u8)

  const INITIAL := Health(true, 0, 0)

  function S8(x: int): int {
    if x % 256 < 128 then x % 256 else x % 256 - 256
  }

  /** A timer expiry without an answer. UNI-C restarts its counter at the limit, UNI-N lets it run on.
      The second component is the state reported to NSM, if any. */
  function OnMiss(end: End, h: Health, n393: nat): (Health, seq<bool>) {
    var status := S8(h.status + 1);
    if status >= n393 then
      (Health(false, if end.UniC? then 0 else status, 0), if h.up then [false] else [])
    else
      (Health(h.up, status, 0), [])
  }

  /** An accepted frame at UNI-C, a transmitted answer at UNI-N. */
  function OnAccept(h: Health, n393: nat): (Health, seq<bool>) {
    var recent := (h.recent + 1) % 256;
    if recent == n393 then
      (Health(true, 0, recent), if h.up then [] else [true])
    else
      (Health(h.up, 0, recent), [])
  }

  function Step(end: End, h: Health, n393: nat, o: Obs): (Health, seq<bool>) {
    if o.Miss? then OnMiss(end, h, n393) else OnAccept(h, n393)
  }

  function Init<T>(h: seq<T>): seq<T>
    requires h != []
  {
    h[..|h| - 1]
  }

  function Last<T>(h: seq<T>): T
    requires h != []
  {
    h[|h| - 1]
  }

  /** State after a history, starting from a freshly enabled port. */
  function After(end: End, n393: nat, h: seq<Obs>): Health {
    if h == [] then INITIAL else Step(end, After(end, n393, Init(h)), n393, Last(h)).0
  }

  /** Everything sent to NSM, the UP of elmi_api_enable_port first. */
  function Notes(end: End, n393: nat, h: seq<Obs>): (r: seq<bool>)
    ensures |r| >= 1
  {
    if h == [] then [true] else Notes(end, n393, Init(h)) + Step(end, After(end, n393, Init(h)), n393, Last(h)).1
  }

  // ---- the specification ----

  ghost predicate RunOf(h: seq<Obs>, o: Obs, i: nat, n: nat) {
    i + n <= |h| && forall k | i <= k < i + n :: h[k] == o
  }

  /** Some n misses in a row have not been followed by n accepts in a row. */
  ghost predicate Down(h: seq<Obs>, n: nat) {
    exists i: nat :: RunOf(h, Miss, i, n) && forall j: nat | i + n <= j :: !RunOf(h, Accept, j, n)
  }

  /** How many of the latest observations are `o`. */
  function Trailing(h: seq<Obs>, o: Obs): (t: nat)
    ensures t <= |h|
    ensures forall k | |h| - t <= k < |h| :: h[k] == o
    ensures t < |h| ==> h[|h| - t - 1] != o
  {
    if h == [] || Last(h) != o then 0 else 1 + Trailing(Init(h), o)
  }

  lemma TrailingRun(h: seq<Obs>, o: Obs, n: nat)
    requires n <= |h|
    ensures RunOf(h, o, |h| - n, n) <==> Trailing(h, o) >= n
  {
    var t := Trailing(h, o);
    if t < n {
      assert h[|h| - t - 1] != o;
    }
  }

  lemma RunInInit(h: seq<Obs>, o: Obs, i: nat, n: nat)
    requires h != [] && n >= 1
    ensures RunOf(h, o, i, n) <==> RunOf(Init(h), o, i, n) || (i + n == |h| && Trailing(h, o) >= n)
  {
    if i + n == |h| {
      TrailingRun(h, o, n);
    }
    if RunOf(h, o, i, n) && i + n < |h| {
      assert forall k | i <= k < i + n :: Init(h)[k] == h[k];
    }
    if RunOf(Init(h), o, i, n) {
      assert forall k | i <= k < i + n :: Init(h)[k] == h[k];
    }
  }

  lemma DownAfterMiss(h: seq<Obs>, n: nat)
    requires h != [] && n >= 1 && Last(h) == Miss
    ensures Down(h, n) <==> Down(Init(h), n) || Trailing(h, Miss) >= n
  {
    if Trailing(h, Miss) >= n {
      TrailingRun(h, Miss, n);
      assert RunOf(h, Miss, |h| - n, n);
    }
    if Down(Init(h), n) {
      var i: nat :| RunOf(Init(h), Miss, i, n) && forall j: nat | i + n <= j :: !RunOf(Init(h), Accept, j, n);
      RunInInit(h, Miss, i, n);
      forall j: nat | i + n <= j
        ensures !RunOf(h, Accept, j, n)
      {
        RunInInit(h, Accept, j, n);
      }
    }
    if Down(h, n) {
      var i: nat :| RunOf(h, Miss, i, n) && forall j: nat | i + n <= j :: !RunOf(h, Accept, j, n);
      RunInInit(h, Miss, i, n);
      forall j: nat | i + n <= j
        ensures !RunOf(Init(h), Accept, j, n)
      {
        RunInInit(h, Accept, j, n);
      }
    }
  }

  lemma DownAfterAccept(h: seq<Obs>, n: nat)
    requires h != [] && n >= 1 && Last(h) == Accept
    ensures Down(h, n) <==> Down(Init(h), n) && Trailing(h, Accept) < n
  {
    if Down(Init(h), n) && Trailing(h, Accept) < n {
      var i: nat :| RunOf(Init(h), Miss, i, n) && forall j: nat | i + n <= j :: !RunOf(Init(h), Accept, j, n);
      RunInInit(h, Miss, i, n);
      forall j: nat | i + n <= j
        ensures !RunOf(h, Accept, j, n)
      {
        RunInInit(h, Accept, j, n);
      }
    }
    if Down(h, n) {
      var i: nat :| RunOf(h, Miss, i, n) && forall j: nat | i + n <= j :: !RunOf(h, Accept, j, n);
      RunInInit(h, Miss, i, n);
      forall j: nat | i + n <= j
        ensures !RunOf(Init(h), Accept, j, n)
      {
        RunInInit(h, Accept, j, n);
      }
      TrailingRun(h, Accept, n);
      assert h[i + n - 1] == Miss;
    }
  }

  // ---- refinement ----

  /** The counters against the history: exact where the state machine can still react to them. */
  ghost predicate Matches(h: seq<Obs>, n: nat, x: Health) {
    && x.up == !Down(h, n)
    && (x.up ==> x.status == Trailing(h, Miss) < n)
    && (Trailing(h, Miss) == 0 ==> x.status == 0)
    && (!x.up ==> x.recent == Trailing(h, Accept) < n)
    && (Trailing(h, Accept) == 0 ==> x.recent == 0)
  }

  /** For every history the narrow, wrapping counters give exactly the specified state: DOWN from the
      n-th miss in a row until the n-th accept in a row. */
  lemma {:induction false} RefinesHistory(end: End, n: nat, h: seq<Obs>)
    requires 1 <= n <= 127
    ensures Matches(h, n, After(end, n, h))
    ensures After(end, n, h).up <==> !Down(h, n)
  {
    if h == [] {
      assert !Down(h, n);
    } else {
      RefinesHistory(end, n, Init(h));
      StepMatches(end, n, h, After(end, n, Init(h)));
    }
  }

  lemma StepMatches(end: End, n: nat, h: seq<Obs>, x: Health)
    requires h != [] && 1 <= n <= 127 && Matches(Init(h), n, x)
    ensures Matches(h, n, Step(end, x, n, Last(h)).0)
  {
    hide RunOf, Down, Trailing;
    if Last(h) == Miss {
      DownAfterMiss(h, n);
    } else {
      DownAfterAccept(h, n);
    }
  }

  /** UP turns to DOWN exactly at the n-th miss since the last accept, and DOWN to UP exactly at the
      n-th accept since the last miss. */
  lemma TransitionInstants(end: End, n: nat, h: seq<Obs>)
    requires h != [] && 1 <= n <= 127
    ensures var was, now := After(end, n, Init(h)).up, After(end, n, h).up;
            && (was && !now <==> was && Trailing(h, Miss) == n)
            && (!was && now <==> !was && Trailing(h, Accept) == n)
  {
    RefinesHistory(end, n, Init(h));
    RefinesHistory(end, n, h);
    if Last(h) == Miss {
      DownAfterMiss(h, n);
    } else {
      DownAfterAccept(h, n);
    }
  }

  /** A step tells NSM the new state if it differs from the old one, and nothing otherwise. */
  lemma StepNotes(end: End, h: Health, n: nat, o: Obs)
    ensures var (h2, notes) := Step(end, h, n, o);
            notes == if h2.up == h.up then [] else [h2.up]
  {
  }

  /** NSM hears UP first, then strictly alternating states, and always knows the current one. */
  lemma {:induction false} NotesAlternate(end: End, n: nat, h: seq<Obs>)
    ensures var notes := Notes(end, n, h);
            && Last(notes) == After(end, n, h).up
            && forall i | 0 <= i < |notes| :: notes[i] == (i % 2 == 0)
  {
    hide Step;
    if h != [] {
      StepNotes(end, After(end, n, Init(h)), n, Last(h));
      NotesAlternate(end, n, Init(h));
    }
  }
}
