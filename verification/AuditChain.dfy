/** The hash-chained, signed audit log. Hash and signature scheme are parameters; what
    is proved about them holds of any, with a collision exhibited where one is needed. */
module AuditChain {
  import opened Options
  import Text

  type Hash = string

  /** The event's fields, as canonical text. */
  type Payload(==, !new)

  type Signature = string

  /** The four hashed and signed fields; equal canonical bytes mean equal fields. */
  datatype Canonical = Canonical(seqNo: int, tsMs: int, prevHash: Hash, payload: Payload)

  /** A parsed record, which may be something else than an object. `body` is `None` when one
      of the hashed fields is missing, `sig` when the signature is missing or not
      hexadecimal. */
  datatype Record = Record(isObject: bool, body: Option<Canonical>, hash: Option<Hash>, sig: Option<Signature>)

  /** A line of the chain file. */
  datatype Line = Blank | Garbage | Parsed(record: Record)

  /** `hash` is SHA-256 in hexadecimal; `sign` and `accepts` are the key pair's. `readBack`
      is what becomes of a payload that is written to the file and parsed again: keys that
      are numbers come back as strings, and are sorted as such. */
  datatype Crypto = Crypto(
    hash: Canonical -> Hash,
    sign: Canonical -> Signature,
    accepts: (Canonical, Signature) -> bool,
    readBack: Payload -> Payload)

  /** A digest is never empty, and a signature verifies under its own key. */
  ghost predicate Sound(c: Crypto) {
    && (forall m :: c.hash(m) != "")
    && (forall m :: c.accepts(m, c.sign(m)))
  }

  /** `Raises` is the uncaught TypeError of a record that is no object, or KeyError of one
      that has no hash field. */
  datatype Verdict = Ok(verified: nat) | Bad(index: nat) | Raises(index: nat)

  // ---------------------------------------------------------------------------
  // Verification
  // ---------------------------------------------------------------------------

  /** Reading stops at the first line that does not parse. */
  function ReadAll(file: seq<Line>): seq<Record> {
    if file == [] || file[0].Garbage? then []
    else if file[0].Blank? then ReadAll(file[1..])
    else [file[0].record] + ReadAll(file[1..])
  }

  /** What the loop accepts of one record, given the running hash and the record before. */
  predicate Accepted(c: Crypto, r: Record, prevHash: Hash, prev: Option<Record>) {
    && r.isObject && r.body.Some? && r.hash.Some? && r.sig.Some?
    && r.hash.value == c.hash(r.body.value)
    && r.body.value.prevHash == prevHash
    && c.accepts(r.body.value, r.sig.value)
    && (prev.Some? && prev.value.body.Some? ==> r.body.value.seqNo == prev.value.body.value.seqNo + 1)
  }

  function PrevHash(records: seq<Record>, i: nat): Hash
    requires i <= |records|
  {
    if i == 0 || records[i - 1].hash.None? then "" else records[i - 1].hash.value
  }

  function Prev(records: seq<Record>, i: nat): Option<Record>
    requires i <= |records|
  {
    if i == 0 then None else Some(records[i - 1])
  }

  predicate AcceptedAt(c: Crypto, records: seq<Record>, i: nat)
    requires i < |records|
  {
    Accepted(c, records[i], PrevHash(records, i), Prev(records, i))
  }

  /** Every record hashes and signs its own fields, names the hash of the record before
      it, and is numbered one higher. */
  predicate ValidChain(c: Crypto, records: seq<Record>) {
    forall i | 0 <= i < |records| :: AcceptedAt(c, records, i)
  }

  /** What verification is for: every record holds the digest of its own fields and a
      signature of them that the key accepts, names the digest of the fields before it, and
      is numbered from the first on. */
  predicate Authentic(c: Crypto, records: seq<Record>) {
    forall i | 0 <= i < |records| :: IsSigned(c, records[i]) && Continues(c, records, i)
  }

  predicate IsSigned(c: Crypto, r: Record) {
    && r.isObject && r.body.Some?
    && r.hash == Some(c.hash(r.body.value))
    && r.sig.Some? && c.accepts(r.body.value, r.sig.value)
  }

  predicate Continues(c: Crypto, records: seq<Record>, i: nat)
    requires i < |records|
  {
    && records[i].body.Some? && records[0].body.Some?
    && records[i].body.value.seqNo == records[0].body.value.seqNo + i
    && if i == 0 then records[i].body.value.prevHash == ""
       else records[i - 1].body.Some? && records[i].body.value.prevHash == c.hash(records[i - 1].body.value)
  }

  /** A chain is accepted record by record exactly if it is authentic as a whole. */
  lemma ValidIffAuthentic(c: Crypto, records: seq<Record>)
    ensures ValidChain(c, records) <==> Authentic(c, records)
  {
    if ValidChain(c, records) {
      forall i | 0 <= i < |records| ensures IsSigned(c, records[i]) && Continues(c, records, i) {
        NumberedOn(c, records, i);
        assert AcceptedAt(c, records, i) && (i > 0 ==> AcceptedAt(c, records, i - 1));
      }
    }
    if Authentic(c, records) {
      forall i | 0 <= i < |records| ensures AcceptedAt(c, records, i) {
        assert IsSigned(c, records[i]) && Continues(c, records, i);
        assert i > 0 ==> IsSigned(c, records[i - 1]) && Continues(c, records, i - 1);
      }
    }
  }

  lemma {:induction false} NumberedOn(c: Crypto, records: seq<Record>, i: nat)
    requires ValidChain(c, records) && i < |records|
    ensures records[i].body.Some? && records[0].body.Some?
    ensures records[i].body.value.seqNo == records[0].body.value.seqNo + i
  {
    assert AcceptedAt(c, records, i);
    if i > 0 {
      NumberedOn(c, records, i - 1);
    }
  }

  /** The first record that is not accepted ends the authentic part. */
  lemma FirstBad(c: Crypto, records: seq<Record>, i: nat)
    requires i < |records| && !AcceptedAt(c, records, i) && forall j | 0 <= j < i :: AcceptedAt(c, records, j)
    ensures Authentic(c, records[..i]) && !Authentic(c, records[..i + 1])
  {
    forall j | 0 <= j < i ensures AcceptedAt(c, records[..i], j) {
      assert AcceptedAt(c, records, j);
    }
    assert !AcceptedAt(c, records[..i + 1], i);
    ValidIffAuthentic(c, records[..i]);
    ValidIffAuthentic(c, records[..i + 1]);
  }

  /** What a line makes the process remember of the chain: its digest and its number, or the
      start of a chain if it holds no digest. */
  predicate Remembers(line: Line, hash: Hash, seqNo: int) {
    if line.Parsed? && line.record.isObject && line.record.hash.Some?
    then
      && hash == line.record.hash.value
      && seqNo == if line.record.body.Some? then line.record.body.value.seqNo else 0
    else hash == "" && seqNo == 0
  }

  class Log {
    const crypto: Crypto
    var file: seq<Line>
    var lastHash: Hash
    var seqNo: int

    function Snapshot(): State
      reads this
    {
      State(file, lastHash, seqNo)
    }

    /** Opening the log restores its tail from the last line that is not blank. */
    constructor (crypto: Crypto, file: seq<Line>)
      ensures this.crypto == crypto
      ensures forall hash, n :: Snapshot() == Do(crypto, State(file, hash, n), Restart)
      ensures this.file == file && ((forall line | line in file :: line.Blank?) ==> lastHash == "" && seqNo == 0)
      ensures forall i | 0 <= i < |file| && !file[i].Blank? && (forall j | i < j < |file| :: file[j].Blank?) ::
        Remembers(file[i], lastHash, seqNo)
    {
      this.crypto, this.file := crypto, file;
      lastHash, seqNo := "", 0;
      new;
      var last := Blank;
      var i := 0;
      while i < |file|
        invariant 0 <= i <= |file|
        invariant this.file == file && lastHash == "" && seqNo == 0
        invariant last == LastLine(file[..i])
      {
        if !file[i].Blank? {
          last := file[i];
        }
        assert file[..i + 1][..i] == file[..i];
        i := i + 1;
      }
      assert file[..|file|] == file;
      if last.Parsed? && last.record.isObject && last.record.hash.Some? {
        lastHash := last.record.hash.value;
        if last.record.body.Some? {
          seqNo := last.record.body.value.seqNo;
        }
      }
      LastIsLast(file);
    }

    /** Appends a signed record for this event. */
    method Append(tsMs: int, payload: Payload) returns (record: Record)
      modifies this
      ensures Snapshot() == Do(crypto, old(Snapshot()), Op.Append(tsMs, payload))
      ensures record.body == Some(Canonical(old(seqNo) + 1, tsMs, old(lastHash), payload))
      ensures file == old(file) + [Parsed(WrittenRecord(crypto, record.body.value))]
    {
      var can := Canonical(seqNo + 1, tsMs, lastHash, payload);
      var hash := crypto.hash(can);
      record := Record(true, Some(can), Some(hash), Some(crypto.sign(can)));
      file := file + [Parsed(record.(body := Some(ReadBack(crypto, can))))];
      lastHash := hash;
      seqNo := seqNo + 1;
    }

    /** Accepts exactly the authentic chains, and otherwise names the record that ends the
        authentic part. */
    method Verify() returns (verdict: Verdict)
      ensures var records := ReadAll(file);
        match verdict
        case Ok(n) => n == |records| && Authentic(crypto, records)
        case Bad(i) =>
          && i < |records| && records[i].isObject && (records[i].body.None? || records[i].hash.Some?)
          && Authentic(crypto, records[..i]) && !Authentic(crypto, records[..i + 1])
        case Raises(i) =>
          && i < |records| && (!records[i].isObject || (records[i].body.Some? && records[i].hash.None?))
          && Authentic(crypto, records[..i])
    {
      hide Authentic;
      var records := ReadAll(file);
      var prevHash := "";
      var i := 0;
      while i < |records|
        invariant 0 <= i <= |records| && prevHash == PrevHash(records, i)
        invariant forall j | 0 <= j < i :: AcceptedAt(crypto, records, j)
      {
        var r := records[i];
        assert i > 0 ==> AcceptedAt(crypto, records, i - 1);
        if !AcceptedAt(crypto, records, i) {
          FirstBad(crypto, records, i);
        }
        if !r.isObject {
          return Raises(i);
        }
        if r.body.None? {
          return Bad(i);
        }
        if r.hash.None? {
          return Raises(i);
        }
        var can := r.body.value;
        if r.hash.value != crypto.hash(can) || can.prevHash != prevHash {
          return Bad(i);
        }
        if r.sig.None? || !crypto.accepts(can, r.sig.value) {
          return Bad(i);
        }
        if i > 0 && can.seqNo != records[i - 1].body.value.seqNo + 1 {
          return Bad(i);
        }
        prevHash := r.hash.value;
        i := i + 1;
      }
      ValidIffAuthentic(crypto, records);
      return Ok(|records|);
    }
  }

  /** Two different canonical records with the same digest. */
  predicate Collide(c: Crypto, m: Canonical, m': Canonical) {
    m != m' && c.hash(m) == c.hash(m')
  }

  /** A record of the one chain and a record of the other collide. */
  predicate CollideAmong(c: Crypto, a: seq<Record>, b: seq<Record>) {
    exists i, j | 0 <= i < |a| && 0 <= j < |b| :: BodiesCollide(c, a[i], b[j])
  }

  predicate BodiesCollide(c: Crypto, r: Record, r': Record) {
    r.body.Some? && r'.body.Some? && Collide(c, r.body.value, r'.body.value)
  }

  // ---------------------------------------------------------------------------
  // Appends and restarts
  // ---------------------------------------------------------------------------

  function LastLine(file: seq<Line>): Line {
    if file == [] then Blank
    else if !file[|file| - 1].Blank? then file[|file| - 1]
    else LastLine(file[..|file| - 1])
  }

  lemma LastIsLast(file: seq<Line>)
    ensures (forall line | line in file :: line.Blank?) ==> LastLine(file).Blank?
    ensures forall i | 0 <= i < |file| && !file[i].Blank? && (forall j | i < j < |file| :: file[j].Blank?) ::
      LastLine(file) == file[i]
  {
    hide LastLine;
    forall i | 0 <= i < |file| && !file[i].Blank? && (forall j | i < j < |file| :: file[j].Blank?)
      ensures LastLine(file) == file[i]
    {
      LastIsAt(file, i);
    }
    if forall line | line in file :: line.Blank? {
      LastOfBlanks(file);
    }
  }

  lemma {:induction false} LastIsAt(file: seq<Line>, i: nat)
    requires i < |file| && !file[i].Blank? && forall j | i < j < |file| :: file[j].Blank?
    ensures LastLine(file) == file[i]
  {
    if i < |file| - 1 {
      LastIsAt(file[..|file| - 1], i);
    }
  }

  lemma {:induction false} LastOfBlanks(file: seq<Line>)
    requires forall line | line in file :: line.Blank?
    ensures LastLine(file).Blank?
  {
    if file != [] {
      LastOfBlanks(file[..|file| - 1]);
    }
  }

  /** The running hash and sequence number that opening this file restores. */
  function Tail(file: seq<Line>): (Hash, int) {
    var last := LastLine(file);
    if last.Parsed? && last.record.isObject && last.record.hash.Some?
    then (last.record.hash.value, if last.record.body.Some? then last.record.body.value.seqNo else 0)
    else ("", 0)
  }

  /** The hashed fields of a record when it is parsed again. */
  function ReadBack(c: Crypto, can: Canonical): Canonical {
    can.(payload := c.readBack(can.payload))
  }

  /** The record that is parsed of the line written for these fields. */
  function WrittenRecord(c: Crypto, can: Canonical): Record {
    Record(true, Some(ReadBack(c, can)), Some(c.hash(can)), Some(c.sign(can)))
  }

  datatype Op = Append(tsMs: int, payload: Payload) | Restart

  /** What the process knows of the log, and the file. */
  datatype State = State(file: seq<Line>, lastHash: Hash, seqNo: int)

  /** The effect of the two operations above. */
  function Do(c: Crypto, s: State, op: Op): State {
    match op
    case Append(tsMs, payload) =>
      var can := Canonical(s.seqNo + 1, tsMs, s.lastHash, payload);
      State(s.file + [Parsed(WrittenRecord(c, can))], c.hash(can), s.seqNo + 1)
    case Restart => State(s.file, Tail(s.file).0, Tail(s.file).1)
  }

  function DoAll(c: Crypto, ops: seq<Op>): State {
    if ops == [] then State([], "", 0)
    else Do(c, DoAll(c, ops[..|ops| - 1]), ops[|ops| - 1])
  }

  /** The events that were appended, in order. */
  function Appended(ops: seq<Op>): seq<(int, Payload)> {
    if ops == [] then []
    else
      var op := ops[|ops| - 1];
      Appended(ops[..|ops| - 1]) + if op.Append? then [(op.tsMs, op.payload)] else []
  }

  function Lines(records: seq<Record>): (file: seq<Line>)
    ensures |file| == |records|
    ensures forall i | 0 <= i < |records| :: file[i] == Parsed(records[i])
  {
    var n := |records|;
    if n == 0 then [] else Lines(records[..n - 1]) + [Parsed(records[n - 1])]
  }

  lemma {:induction false} ReadLines(records: seq<Record>)
    ensures ReadAll(Lines(records)) == records
  {
    if records != [] {
      assert Lines(records)[1..] == Lines(records[1..]);
      ReadLines(records[1..]);
    }
  }

  /** The records that are parsed of the lines written for these fields. */
  function Written(c: Crypto, cans: seq<Canonical>): (records: seq<Record>)
    ensures |records| == |cans|
    ensures forall i | 0 <= i < |cans| :: records[i] == WrittenRecord(c, cans[i])
  {
    var n := |cans|;
    if n == 0 then [] else Written(c, cans[..n - 1]) + [WrittenRecord(c, cans[n - 1])]
  }

  /** Each names the hash before it, and they are numbered from one. */
  predicate Linked(c: Crypto, cans: seq<Canonical>) {
    forall i | 0 <= i < |cans| :: cans[i].seqNo == i + 1 && cans[i].prevHash == LastHash(c, cans, i)
  }

  function LastHash(c: Crypto, cans: seq<Canonical>, n: nat): Hash
    requires n <= |cans|
  {
    if n == 0 then "" else c.hash(cans[n - 1])
  }

  /** What is hashed and signed, over these operations. */
  function Hashed(c: Crypto, ops: seq<Op>): (cans: seq<Canonical>)
    ensures |cans| == |Appended(ops)|
  {
    var n := |ops|;
    if n == 0 then []
    else
      var before := Hashed(c, ops[..n - 1]);
      match ops[n - 1]
      case Append(tsMs, payload) =>
        before + [Canonical(|before| + 1, tsMs, LastHash(c, before, |before|), payload)]
      case Restart => before
  }

  lemma LinkedOneMore(c: Crypto, cans: seq<Canonical>, can: Canonical)
    requires Linked(c, cans) && can.seqNo == |cans| + 1 && can.prevHash == LastHash(c, cans, |cans|)
    ensures Linked(c, cans + [can]) && LastHash(c, cans + [can], |cans| + 1) == c.hash(can)
  {
    var longer := cans + [can];
    forall i | 0 <= i < |longer| ensures longer[i].seqNo == i + 1 && longer[i].prevHash == LastHash(c, longer, i) {
      assert i < |cans| ==> longer[i] == cans[i];
      assert 0 < i ==> longer[i - 1] == cans[i - 1];
    }
  }

  /** Whatever is appended, and however often the process is restarted in between, the
      lines are those of linked records, and the process knows their end. */
  lemma {:induction false} LinesAreLinked(c: Crypto, ops: seq<Op>)
    ensures var cans := Hashed(c, ops);
      Linked(c, cans) && DoAll(c, ops) == State(Lines(Written(c, cans)), LastHash(c, cans, |cans|), |cans|)
  {
    hide Linked, Lines, Written, WrittenRecord, LastHash, Tail;
    var n := |ops|;
    if n == 0 {
      NoLines(c);
    } else {
      LinesAreLinked(c, ops[..n - 1]);
      var before := Hashed(c, ops[..n - 1]);
      match ops[n - 1] {
        case Append(tsMs, payload) =>
          var can := Canonical(|before| + 1, tsMs, LastHash(c, before, |before|), payload);
          LinkedOneMore(c, before, can);
          OneMoreLine(c, before, can);
        case Restart =>
          TailOfLines(c, before);
      }
    }
  }

  lemma NoLines(c: Crypto)
    ensures Linked(c, []) && Lines(Written(c, [])) == [] && LastHash(c, [], 0) == ""
  {
  }

  predicate IsFor(can: Canonical, event: (int, Payload)) {
    can.tsMs == event.0 && can.payload == event.1
  }

  /** One record for each event. */
  lemma {:induction false} HashedAreAppended(c: Crypto, ops: seq<Op>)
    ensures |Hashed(c, ops)| == |Appended(ops)|
    ensures forall i | 0 <= i < |Appended(ops)| :: IsFor(Hashed(c, ops)[i], Appended(ops)[i])
  {
    hide LastHash;
    if ops != [] {
      HashedAreAppended(c, ops[..|ops| - 1]);
    }
  }

  lemma OneMoreLine(c: Crypto, cans: seq<Canonical>, can: Canonical)
    ensures Lines(Written(c, cans + [can])) == Lines(Written(c, cans)) + [Parsed(WrittenRecord(c, can))]
  {
  }

  lemma TailOfLines(c: Crypto, cans: seq<Canonical>)
    requires Linked(c, cans)
    ensures Tail(Lines(Written(c, cans))) == (LastHash(c, cans, |cans|), |cans|)
  {
  }

  /** The payload's canonical text survives being written and parsed. */
  predicate Stable(c: Crypto, payload: Payload) {
    c.readBack(payload) == payload
  }

  lemma LinkedIsAcceptedIf(c: Crypto, cans: seq<Canonical>, i: nat)
    requires Sound(c) && Linked(c, cans) && i < |cans|
    ensures Stable(c, cans[i].payload) ==> AcceptedAt(c, Written(c, cans), i)
    ensures AcceptedAt(c, Written(c, cans), i) ==> Stable(c, cans[i].payload) || CollidesReadBack(c, cans[i])
  {
  }

  /** The hashed fields collide with what they are when they are parsed again. */
  predicate CollidesReadBack(c: Crypto, can: Canonical) {
    Collide(c, can, ReadBack(c, can))
  }

  /** A record as it is read, of this event. */
  predicate Holds(c: Crypto, r: Record, i: nat, event: (int, Payload)) {
    && r.body.Some? && r.body.value.seqNo == i + 1
    && r.body.value.tsMs == event.0 && r.body.value.payload == c.readBack(event.1)
  }

  predicate AllStable(c: Crypto, events: seq<(int, Payload)>) {
    forall i | 0 <= i < |events| :: Stable(c, events[i].1)
  }

  /** After any mix of appends and restarts the file holds one record for each append,
      numbered from one. If every payload survives being written and parsed it verifies; and
      if it verifies, the fields hashed for any other payload collide with themselves as
      they are parsed. */
  lemma AppendsVerify(c: Crypto, ops: seq<Op>)
    requires Sound(c)
    ensures var records, events := ReadAll(DoAll(c, ops).file), Appended(ops);
      && |records| == |events|
      && (forall i | 0 <= i < |records| :: Holds(c, records[i], i, events[i]))
      && (AllStable(c, events) ==> ValidChain(c, records))
      && (ValidChain(c, records) ==>
            forall i | 0 <= i < |events| :: Stable(c, events[i].1) || CollidesReadBack(c, Hashed(c, ops)[i]))
  {
    hide Stable, CollidesReadBack, Sound, AcceptedAt, Hashed, Lines, Written, Appended, LastHash, DoAll, ReadAll;
    LinesAreLinked(c, ops);
    HashedAreAppended(c, ops);
    var cans, events := Hashed(c, ops), Appended(ops);
    var records := Written(c, cans);
    ReadLines(records);
    forall i | 0 <= i < |cans|
      ensures Holds(c, records[i], i, events[i])
      ensures Stable(c, events[i].1) ==> AcceptedAt(c, records, i)
      ensures AcceptedAt(c, records, i) ==> Stable(c, events[i].1) || CollidesReadBack(c, cans[i])
    {
      assert IsFor(cans[i], events[i]);
      LinkedIsAcceptedIf(c, cans, i);
    }
  }

  // ---------------------------------------------------------------------------
  // Binding
  // ---------------------------------------------------------------------------

  /** The hashed fields of two chains are the same, record by record. */
  predicate SameHistory(a: seq<Record>, b: seq<Record>) {
    |a| == |b| && forall i | 0 <= i < |a| :: a[i].body == b[i].body
  }

  /** Two valid chains that end in the same hash have the same history, or a record of the
      one and a record of the other collide. Signatures may differ. */
  lemma {:induction false} Binding(c: Crypto, a: seq<Record>, b: seq<Record>)
    requires Sound(c) && ValidChain(c, a) && ValidChain(c, b)
    requires PrevHash(a, |a|) == PrevHash(b, |b|)
    ensures SameHistory(a, b) || CollideAmong(c, a, b)
  {
    if a != [] {
      assert AcceptedAt(c, a, |a| - 1);
    }
    if b != [] {
      assert AcceptedAt(c, b, |b| - 1);
    }
    if a != [] && b != [] {
      var m, m' := a[|a| - 1].body.value, b[|b| - 1].body.value;
      if m == m' {
        var a', b' := a[..|a| - 1], b[..|b| - 1];
        PrefixValid(c, a, |a| - 1);
        PrefixValid(c, b, |b| - 1);
        Binding(c, a', b');
        if i, j :| 0 <= i < |a'| && 0 <= j < |b'| && BodiesCollide(c, a'[i], b'[j]) {
          assert BodiesCollide(c, a[i], b[j]);
        }
      } else {
        assert BodiesCollide(c, a[|a| - 1], b[|b| - 1]);
      }
    }
  }

  lemma {:induction false} PrefixValid(c: Crypto, a: seq<Record>, n: nat)
    requires ValidChain(c, a) && n <= |a|
    ensures ValidChain(c, a[..n])
    ensures PrevHash(a[..n], n) == PrevHash(a, n)
  {
    forall i | 0 <= i < n ensures AcceptedAt(c, a[..n], i) {
      assert AcceptedAt(c, a, i);
    }
  }

  /** The head that is mirrored off the machine: sequence number and 32 hex digits. */
  const MIRRORED_DIGITS: nat := 32

  /** The digests of two different canonical records are mirrored alike. */
  predicate MirroredAlike(c: Crypto, m: Canonical, m': Canonical) {
    m != m' && Text.Truncated(c.hash(m), MIRRORED_DIGITS) == Text.Truncated(c.hash(m'), MIRRORED_DIGITS)
  }

  /** A mirrored head fixes the whole history below it: a valid chain that shows the same
      digits has the same history, or a record of the one and a record of the other collide,
      or the last records of the two are different and mirrored alike. */
  lemma {:induction false} MirrorBinding(c: Crypto, a: seq<Record>, b: seq<Record>)
    requires Sound(c) && ValidChain(c, a) && ValidChain(c, b) && a != [] && b != []
    requires Text.Truncated(PrevHash(a, |a|), MIRRORED_DIGITS) == Text.Truncated(PrevHash(b, |b|), MIRRORED_DIGITS)
    ensures
      || SameHistory(a, b)
      || CollideAmong(c, a, b)
      || (a[|a| - 1].body.Some? && b[|b| - 1].body.Some?
          && MirroredAlike(c, a[|a| - 1].body.value, b[|b| - 1].body.value))
  {
    assert AcceptedAt(c, a, |a| - 1) && AcceptedAt(c, b, |b| - 1);
    if a[|a| - 1].body == b[|b| - 1].body {
      Binding(c, a, b);
    }
  }

  // ---------------------------------------------------------------------------
  // Lines that do not parse
  // ---------------------------------------------------------------------------

  /** A line that does not parse hides itself and everything after it: what is verified
      is the part of the file before it, whatever follows. */
  lemma {:induction false} GarbageHidesTheRest(records: seq<Record>, rest: seq<Line>)
    ensures ReadAll(Lines(records) + [Garbage] + rest) == records
  {
    if records != [] {
      var file := Lines(records) + [Garbage] + rest;
      assert file[1..] == Lines(records[1..]) + [Garbage] + rest;
      GarbageHidesTheRest(records[1..], rest);
    }
  }

  /** Blank lines are passed over wherever they are. */
  lemma {:induction false} BlanksArePassedOver(a: seq<Line>, b: seq<Line>)
    ensures ReadAll(a + [Blank] + b) == ReadAll(a + b)
  {
    if a == [] {
      assert a + [Blank] + b == [Blank] + b && a + b == b;
    } else {
      assert (a + [Blank] + b)[1..] == a[1..] + [Blank] + b && (a + b)[1..] == a[1..] + b;
      BlanksArePassedOver(a[1..], b);
    }
  }
}
