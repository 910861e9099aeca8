/** Noticing provider changes by the data instance: NSM changes it at the provider, periodic checks carry it over. */
module ChangeDetection {
  import opened Octets
  import opened Wire
  import opened RoundTrip
  import opened Serving
  import UniCSpec
  import UniNSpec
  import Hysteresis
  import DatabaseOps

  /** How many of the operations count as changes, the database developing as they go. */
  function Changes(db: Database, di: u32, ops: seq<DatabaseOps.Op>): nat {
    if ops == [] then 0
    else
      var n := |ops| - 1;
      Changes(db, di, ops[..n]) + if DatabaseOps.Counts(DatabaseOps.ApplyAll(db, di, ops[..n]).0, ops[n]) then 1 else 0
  }

  /** A 32-bit counter after k more steps. */
  function Counted(di: u32, k: nat): u32 {
    if k == 0 then di else DatabaseOps.NextInstance(Counted(di, k - 1))
  }

  lemma NextIs(x: nat)
    ensures DatabaseOps.NextInstance(x % 0x1_0000_0000) == (x + 1) % 0x1_0000_0000
  {
  }

  /** It is the sum modulo 2^32. */
  lemma {:induction false} CountedIs(di: u32, k: nat)
    ensures Counted(di, k) == (di + k) % 0x1_0000_0000
  {
    if k > 0 {
      CountedIs(di, k - 1);
      NextIs(di + k - 1);
    }
  }

  /** The data instance counts the changes. */
  lemma {:induction false} DataInstanceCounts(db: Database, di: u32, ops: seq<DatabaseOps.Op>)
    ensures DatabaseOps.ApplyAll(db, di, ops).1 == Counted(di, Changes(db, di, ops))
  {
    hide DatabaseOps.Applied, DatabaseOps.Counts;
    if ops != [] {
      DataInstanceCounts(db, di, ops[..|ops| - 1]);
    }
  }

  /** What a periodic check leads to. */
  datatype Verdict = Unchanged | Changed | Unanswered

  /** UNI-C sends an ECHECK enquiry, UNI-N answers, UNI-C handles the answer; nothing is lost. */
  function Check(cc: UniCSpec.Config, cn: UniNSpec.Config, c: UniCSpec.State, n: UniNSpec.State): Verdict {
    var (c1, built, sent) := UniCSpec.Transmit(c, REPORT_ECHECK, OPEN);
    if built == [] then Unanswered
    else
      var (n1, o) := UniNSpec.Handle(cn, n, built[0], OPEN);
      if o.frames == [] then Unanswered else VerdictOf(UniCSpec.Handle(cc, c1, o.frames[0], OPEN).1)
  }

  /** An accepted answer after which UNI-C asks for everything again has told it of a change. */
  function VerdictOf(o: UniCSpec.Output): Verdict {
    if o.accepted == None then Unanswered else if o.sent then Changed else Unchanged
  }

  lemma ProviderChecks(cn: UniNSpec.Config, n: UniNSpec.State, sent: u8, rcvd: u8, di: u32)
    requires sent != 0
    ensures UniNSpec.Handle(cn, n, Enquiry(REPORT_ECHECK, sent, rcvd, di), OPEN).1.frames
         == [Pad(Header(MSG_STATUS, REPORT_ECHECK, NextSeq(n.sentSeq), sent, n.dataInstance))]
  {
    EnquiryRoundTrip(REPORT_ECHECK, sent, rcvd, di);
  }

  lemma CustomerChecks(cc: UniCSpec.Config, c: UniCSpec.State, data: bytes, sent: u8, di: u32)
    requires c.requestSent && c.lastRequest == REPORT_ECHECK && c.sentSeq != 0 && sent != 0
    requires data == Pad(Header(MSG_STATUS, REPORT_ECHECK, sent, c.sentSeq, di))
    ensures VerdictOf(UniCSpec.Handle(cc, c, data, OPEN).1) == Expected(di, c.dataInstance)
  {
    var head := Header(MSG_STATUS, REPORT_ECHECK, sent, c.sentSeq, di);
    assert data[0..|head|] == head;
    HeaderValidates(data, REPORT_ECHECK, sent, c.sentSeq, di, c.requestSent, c.lastRequest);
    SeqDiRoundTrip(data, REPORT_ECHECK, sent, c.sentSeq, di, c.sentSeq);
  }

  /** Only the low octet of the provider's data instance counts, and none is answered while that is zero. */
  function Expected(provider: u32, customer: u32): Verdict {
    if provider % 256 == 0 then Unanswered else if customer == provider % 256 then Unchanged else Changed
  }

  lemma CheckIs(cc: UniCSpec.Config, cn: UniNSpec.Config, c: UniCSpec.State, n: UniNSpec.State)
    ensures Check(cc, cn, c, n) == Expected(n.dataInstance, c.dataInstance)
    ensures Check(cc, cn, c, n) == Unanswered <==> n.dataInstance % 256 == 0
  {
    var (c1, built, sent) := UniCSpec.Transmit(c, REPORT_ECHECK, OPEN);
    ProviderChecks(cn, n, c1.sentSeq, c.rcvdSeq, c.dataInstance);
    var frame := Pad(Header(MSG_STATUS, REPORT_ECHECK, NextSeq(n.sentSeq), c1.sentSeq, n.dataInstance));
    CustomerChecks(cc, c1, frame, NextSeq(n.sentSeq), n.dataInstance);
  }

  lemma LowOctet(a: nat)
    ensures a % 0x1_0000_0000 % 256 == a % 256
  {
    assert a == a / 0x1_0000_0000 * 0x1_0000_0000 + a % 0x1_0000_0000;
    assert a / 0x1_0000_0000 * 0x1_0000_0000 == 256 * (a / 0x1_0000_0000 * 0x100_0000);
  }

  lemma SameOctet(a: nat, k: nat)
    ensures (a + k) % 256 == a % 256 <==> k % 256 == 0
  {
  }

  /** What a check tells a customer that learnt the database at data instance `di` about k changes made since. */
  function Noticed(di: u32, k: nat): Verdict {
    if (di + k) % 256 == 0 then Unanswered else if k % 256 == 0 then Unchanged else Changed
  }

  lemma ExpectedAfter(di: u32, k: nat)
    ensures Expected(Counted(di, k), di % 256) == Noticed(di, k)
  {
    CountedIs(di, k);
    LowOctet(di + k);
    SameOctet(di, k);
  }

  lemma VerdictIs(cc: UniCSpec.Config, cn: UniNSpec.Config, c: UniCSpec.State, n: UniNSpec.State,
                  db: Database, di: u32, ops: seq<DatabaseOps.Op>)
    requires c.dataInstance == di % 256 && n.dataInstance == DatabaseOps.ApplyAll(db, di, ops).1
    ensures Check(cc, cn, c, n) == Noticed(di, Changes(db, di, ops))
  {
    DataInstanceCounts(db, di, ops);
    ExpectedAfter(di, Changes(db, di, ops));
    CheckIs(cc, cn, c, n);
  }

  /** The changes made since are noticed exactly if neither their number nor the data instance they lead to is a
      multiple of 256. */
  lemma ChangesNoticed(cc: UniCSpec.Config, cn: UniNSpec.Config, c: UniCSpec.State, n: UniNSpec.State,
                       db: Database, di: u32, ops: seq<DatabaseOps.Op>)
    requires c.dataInstance == di % 256 && n.dataInstance == DatabaseOps.ApplyAll(db, di, ops).1
    ensures var k := Changes(db, di, ops);
            Check(cc, cn, c, n) == Changed <==> k % 256 != 0 && (di + k) % 256 != 0
  {
    VerdictIs(cc, cn, c, n, db, di, ops);
  }

  /** Deleting the UNI does not count: a customer that knew the database before finds nothing changed. */
  lemma UniDropUnnoticed(cc: UniCSpec.Config, cn: UniNSpec.Config, c: UniCSpec.State, n: UniNSpec.State, db: Database,
                         di: u32)
    requires db.uni.Some? && di % 256 != 0 && c.dataInstance == di % 256
    requires (n.db, n.dataInstance) == DatabaseOps.Apply(db, di, DatabaseOps.UniDrop)
    ensures n.db.uni == None && Check(cc, cn, c, n) == Unchanged
  {
    hide Check;
    CheckIs(cc, cn, c, n);
  }

  // ---- from enabling on ----

  /** A provider port just enabled answers its first periodic check; the customer sees a change unless it holds data
      instance 1. */
  lemma EnabledAnswers(cc: UniCSpec.Config, cn: UniNSpec.Config, c: UniCSpec.State, db: Database)
    ensures Check(cc, cn, c, UniNSpec.Enabled(db)) == if c.dataInstance == 1 then Unchanged else Changed
  {
    hide Check;
    CheckIs(cc, cn, c, UniNSpec.Enabled(db));
  }

  /** From enabling on, the data instance is one more than the number of changes, in 32 bits. */
  lemma InstanceSinceEnabling(db: Database, ops: seq<DatabaseOps.Op>)
    ensures DatabaseOps.ApplyAll(db, UniNSpec.Enabled(db).dataInstance, ops).1
         == (1 + Changes(db, 1, ops)) % 0x1_0000_0000
  {
    hide DatabaseOps.ApplyAll, DatabaseOps.Applied, DatabaseOps.NextInstance, Changes, Counted;
    DataInstanceCounts(db, 1, ops);
    CountedIs(1, Changes(db, 1, ops));
  }
}
