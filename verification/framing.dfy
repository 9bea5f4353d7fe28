/** The byte framings that are hashed or authenticated, and why no two inputs share one. */
module Framing {

  type Byte = b: int | 0 <= b < 256

  type Bytes = seq<Byte>

  // ---------------------------------------------------------------- fixed-width integers

  function Power(width: nat): (p: nat)
    ensures p >= 1
  {
    if width == 0 then 1 else 256 * Power(width - 1)
  }

  /** The last `width` base-256 digits, most significant first. */
  function BigEndian(n: nat, width: nat): (r: Bytes)
    ensures |r| == width
  {
    if width == 0 then [] else BigEndian(n / 256, width - 1) + [n % 256]
  }

  lemma {:induction false} BigEndianInjective(m: nat, n: nat, width: nat)
    requires m < Power(width) && n < Power(width) && BigEndian(m, width) == BigEndian(n, width)
    ensures m == n
    decreases width
  {
    if width > 0 {
      var a, b := BigEndian(m / 256, width - 1), BigEndian(n / 256, width - 1);
      assert BigEndian(m, width)[..width - 1] == a && BigEndian(n, width)[..width - 1] == b;
      assert BigEndian(m, width)[width - 1] == m % 256 && BigEndian(n, width)[width - 1] == n % 256;
      BigEndianInjective(m / 256, n / 256, width - 1);
    }
  }

  /** A signed 64-bit value as the unsigned one with the same bits. */
  function Unsigned(t: int): nat {
    t % 0x1_0000_0000_0000_0000
  }

  predicate Signed64(t: int) {
    -0x8000_0000_0000_0000 <= t < 0x8000_0000_0000_0000
  }

  lemma UnsignedInjective(t: int, u: int)
    requires Signed64(t) && Signed64(u) && Unsigned(t) == Unsigned(u)
    ensures t == u
  {
  }

  lemma UnsignedFits(t: int)
    ensures Fits(Unsigned(t))
  {
  }

  predicate Fits(n: int) {
    0 <= n < 0x1_0000_0000_0000_0000
  }

  lemma PowerOfEight()
    ensures Power(8) == 0x1_0000_0000_0000_0000
  {
    assert Power(2) == 256 * Power(1) == 0x1_0000;
    assert Power(4) == 256 * Power(3) == 256 * (256 * Power(2)) == 0x1_0000_0000;
    assert Power(6) == 256 * Power(5) == 256 * (256 * Power(4)) == 0x1_0000_0000_0000;
    assert Power(8) == 256 * Power(7) == 256 * (256 * Power(6));
  }

  /** An integer up front can be read back, and so can what follows. */
  lemma IntegerSplits(m: nat, n: nat, a: Bytes, b: Bytes)
    requires Fits(m) && Fits(n) && BigEndian(m, 8) + a == BigEndian(n, 8) + b
    ensures m == n && a == b
  {
    var x, y := BigEndian(m, 8) + a, BigEndian(n, 8) + b;
    assert x[..8] == BigEndian(m, 8) && y[..8] == BigEndian(n, 8) && x[8..] == a && y[8..] == b;
    PowerOfEight();
    BigEndianInjective(m, n, 8);
  }

  // ---------------------------------------------------------------- length-prefixed fields

  /** Eight bytes of length, then the bytes. */
  function Field(value: Bytes): Bytes {
    BigEndian(|value|, 8) + value
  }

  lemma SamePrefix(v: Bytes, w: Bytes, a: Bytes, b: Bytes)
    requires v + a == w + b && |v| == |w|
    ensures v == w && a == b
  {
    assert (v + a)[..|v|] == v && (w + b)[..|w|] == w && (v + a)[|v|..] == a && (w + b)[|w|..] == b;
  }

  lemma FieldSplits(v: Bytes, w: Bytes, a: Bytes, b: Bytes)
    requires Fits(|v|) && Fits(|w|) && Field(v) + a == Field(w) + b
    ensures v == w && a == b
  {
    assert Field(v) + a == BigEndian(|v|, 8) + (v + a);
    assert Field(w) + b == BigEndian(|w|, 8) + (w + b);
    IntegerSplits(|v|, |w|, v + a, w + b);
    SamePrefix(v, w, a, b);
  }

  datatype Request = Request(version: nat, operationId: Bytes, timestamp: int, nonce: Bytes, operation: Bytes, payload: Bytes) {
    predicate Valid() {
      Fits(version) && Fits(|operationId|) && Signed64(timestamp) && Fits(|nonce|) && Fits(|operation|) && Fits(|payload|)
    }
  }

  function RequestBytes(r: Request): Bytes {
    BigEndian(r.version, 8) + (Field(r.operationId) + (BigEndian(Unsigned(r.timestamp), 8)
      + (Field(r.nonce) + (Field(r.operation) + (Field(r.payload) + [])))))
  }

  /** The buffer is written field by field, and determines the request it was written for. */
  method RequestSigningBytes(r: Request) returns (output: Bytes)
    ensures output == RequestBytes(r)
    ensures r.Valid() ==> forall s: Request | s.Valid() && RequestBytes(s) == output :: s == r
  {
    output := BigEndian(r.version, 8);
    output := output + Field(r.operationId);
    output := output + BigEndian(Unsigned(r.timestamp), 8);
    output := output + Field(r.nonce);
    output := output + Field(r.operation);
    output := output + Field(r.payload);
    Associate6(BigEndian(r.version, 8), Field(r.operationId), BigEndian(Unsigned(r.timestamp), 8), Field(r.nonce), Field(r.operation), Field(r.payload));
    forall s: Request | r.Valid() && s.Valid() && RequestBytes(s) == output ensures s == r {
      RequestBytesInjective(r, s);
    }
  }

  lemma Associate6(a: Bytes, b: Bytes, c: Bytes, d: Bytes, e: Bytes, f: Bytes)
    ensures a + b + c + d + e + f == a + (b + (c + (d + (e + (f + [])))))
  {
  }

  /** Two requests that are authenticated by the same bytes are the same request. */
  lemma RequestBytesInjective(r: Request, s: Request)
    requires r.Valid() && s.Valid() && RequestBytes(r) == RequestBytes(s)
    ensures r == s
  {
    var r4, s4 := Field(r.payload) + [], Field(s.payload) + [];
    var r3, s3 := Field(r.operation) + r4, Field(s.operation) + s4;
    var r2, s2 := Field(r.nonce) + r3, Field(s.nonce) + s3;
    var r1, s1 := BigEndian(Unsigned(r.timestamp), 8) + r2, BigEndian(Unsigned(s.timestamp), 8) + s2;
    IntegerSplits(r.version, s.version, Field(r.operationId) + r1, Field(s.operationId) + s1);
    FieldSplits(r.operationId, s.operationId, r1, s1);
    UnsignedFits(r.timestamp);
    UnsignedFits(s.timestamp);
    IntegerSplits(Unsigned(r.timestamp), Unsigned(s.timestamp), r2, s2);
    UnsignedInjective(r.timestamp, s.timestamp);
    FieldSplits(r.nonce, s.nonce, r3, s3);
    FieldSplits(r.operation, s.operation, r4, s4);
    FieldSplits(r.payload, s.payload, [], []);
  }

  datatype Response = Response(version: nat, operationId: Bytes, timestamp: int, success: bool, payload: Bytes, errorCode: Bytes, message: Bytes) {
    predicate Valid() {
      Fits(version) && Fits(|operationId|) && Signed64(timestamp) && Fits(|payload|) && Fits(|errorCode|) && Fits(|message|)
    }
  }

  function Flag(b: bool): nat {
    if b then 1 else 0
  }

  function ResponseBytes(r: Response): Bytes {
    BigEndian(r.version, 8) + (Field(r.operationId) + (BigEndian(Unsigned(r.timestamp), 8) + (BigEndian(Flag(r.success), 8)
      + (Field(r.payload) + (Field(r.errorCode) + (Field(r.message) + []))))))
  }

  lemma ResponseBytesInjective(r: Response, s: Response)
    requires r.Valid() && s.Valid() && ResponseBytes(r) == ResponseBytes(s)
    ensures r == s
  {
    var r5, s5 := Field(r.message) + [], Field(s.message) + [];
    var r4, s4 := Field(r.errorCode) + r5, Field(s.errorCode) + s5;
    var r3, s3 := Field(r.payload) + r4, Field(s.payload) + s4;
    var r2, s2 := BigEndian(Flag(r.success), 8) + r3, BigEndian(Flag(s.success), 8) + s3;
    var r1, s1 := BigEndian(Unsigned(r.timestamp), 8) + r2, BigEndian(Unsigned(s.timestamp), 8) + s2;
    IntegerSplits(r.version, s.version, Field(r.operationId) + r1, Field(s.operationId) + s1);
    FieldSplits(r.operationId, s.operationId, r1, s1);
    UnsignedFits(r.timestamp);
    UnsignedFits(s.timestamp);
    IntegerSplits(Unsigned(r.timestamp), Unsigned(s.timestamp), r2, s2);
    UnsignedInjective(r.timestamp, s.timestamp);
    IntegerSplits(Flag(r.success), Flag(s.success), r3, s3);
    FieldSplits(r.payload, s.payload, r4, s4);
    FieldSplits(r.errorCode, s.errorCode, r5, s5);
    FieldSplits(r.message, s.message, [], []);
  }

  // ---------------------------------------------------------------- NUL-terminated text

  predicate NulFree(s: Bytes) {
    forall i | 0 <= i < |s| :: s[i] != 0
  }

  /** Decimal digits in ASCII. */
  function Decimal(n: nat): Bytes {
    if n < 10 then [48 + n] else Decimal(n / 10) + [48 + n % 10]
  }

  lemma {:induction false} DecimalIsNulFree(n: nat)
    ensures NulFree(Decimal(n)) && |Decimal(n)| >= 1
  {
    if n >= 10 {
      DecimalIsNulFree(n / 10);
    }
  }

  lemma {:induction false} DecimalInjective(m: nat, n: nat)
    requires Decimal(m) == Decimal(n)
    ensures m == n
  {
    DecimalIsNulFree(m / 10);
    DecimalIsNulFree(n / 10);
    var a, b := Decimal(m), Decimal(n);
    assert a[|a| - 1] == 48 + m % 10 && b[|b| - 1] == 48 + n % 10;
    if m >= 10 && n >= 10 {
      assert a[..|a| - 1] == Decimal(m / 10) && b[..|b| - 1] == Decimal(n / 10);
      DecimalInjective(m / 10, n / 10);
    } else {
      assert |a| == 1 <==> m < 10;
      assert |b| == 1 <==> n < 10;
    }
  }

  /** Text up to the first NUL can be read back, and so can what follows. */
  lemma {:induction false} TerminatedSplits(v: Bytes, w: Bytes, a: Bytes, b: Bytes)
    requires NulFree(v) && NulFree(w) && v + [0] + a == w + [0] + b
    ensures v == w && a == b
  {
    var x, y := v + [0] + a, w + [0] + b;
    assert x[|v|] == 0 && y[|w|] == 0;
    assert forall i | 0 <= i < |v| :: x[i] == v[i] != 0;
    assert forall i | 0 <= i < |w| :: y[i] == w[i] != 0;
    assert |v| == |w|;
    SamePrefix(v, w, [0] + a, [0] + b) by {
      assert v + ([0] + a) == x && w + ([0] + b) == y;
    }
    assert ([0] + a)[1..] == a && ([0] + b)[1..] == b;
  }

  /** Decimal length, NUL, then the bytes. */
  function Part(value: Bytes): Bytes {
    Decimal(|value|) + [0] + value
  }

  lemma PartSplits(v: Bytes, w: Bytes, a: Bytes, b: Bytes)
    requires Part(v) + a == Part(w) + b
    ensures v == w && a == b
  {
    DecimalIsNulFree(|v|);
    DecimalIsNulFree(|w|);
    assert Part(v) + a == Decimal(|v|) + [0] + (v + a);
    assert Part(w) + b == Decimal(|w|) + [0] + (w + b);
    TerminatedSplits(Decimal(|v|), Decimal(|w|), v + a, w + b);
    DecimalInjective(|v|, |w|);
    SamePrefix(v, w, a, b);
  }

  // ---------------------------------------------------------------- the coordinated candidate hash

  function CombinedInput(parts: seq<Bytes>): Bytes {
    if parts == [] then [] else Part(parts[0]) + CombinedInput(parts[1..])
  }

  /** The digest is fed part by part. */
  method FeedCombined(parts: seq<Bytes>) returns (fed: Bytes)
    ensures fed == CombinedInput(parts)
  {
    fed := [];
    for i := 0 to |parts|
      invariant CombinedInput(parts) == fed + CombinedInput(parts[i..])
    {
      assert parts[i..][0] == parts[i] && parts[i..][1..] == parts[i + 1..];
      assert fed + (Part(parts[i]) + CombinedInput(parts[i + 1..])) == (fed + Part(parts[i])) + CombinedInput(parts[i + 1..]);
      fed := fed + Part(parts[i]);
    }
    assert fed + [] == fed;
  }

  /** Two lists of candidates that feed the same bytes are the same list. */
  lemma {:induction false} CombinedInputInjective(p: seq<Bytes>, q: seq<Bytes>)
    requires CombinedInput(p) == CombinedInput(q)
    ensures p == q
    decreases |p|
  {
    if p != [] && q != [] {
      PartSplits(p[0], q[0], CombinedInput(p[1..]), CombinedInput(q[1..]));
      CombinedInputInjective(p[1..], q[1..]);
      assert p == [p[0]] + p[1..] && q == [q[0]] + q[1..];
    } else {
      NothingFromNothing(p);
      NothingFromNothing(q);
    }
  }

  lemma NothingFromNothing(p: seq<Bytes>)
    ensures CombinedInput(p) == [] <==> p == []
  {
    if p != [] {
      DecimalIsNulFree(|p[0]|);
    }
  }

  // ---------------------------------------------------------------- the state hash of native outbounds

  datatype StateEntry = StateEntry(id: Bytes, config: Bytes)

  function EntryInput(e: StateEntry): Bytes {
    e.id + [0] + Part(e.config)
  }

  function EntriesInput(entries: seq<StateEntry>): Bytes {
    if entries == [] then [] else EntryInput(entries[0]) + EntriesInput(entries[1..])
  }

  function StateInput(content: Bytes, present: bool, entries: seq<StateEntry>): Bytes {
    [Flag(present)] + (Part(content) + EntriesInput(entries))
  }

  predicate NulFreeIds(entries: seq<StateEntry>) {
    forall i | 0 <= i < |entries| :: NulFree(entries[i].id)
  }

  lemma EntrySplits(e: StateEntry, f: StateEntry, a: Bytes, b: Bytes)
    requires NulFree(e.id) && NulFree(f.id) && EntryInput(e) + a == EntryInput(f) + b
    ensures e == f && a == b
  {
    assert EntryInput(e) + a == e.id + [0] + (Part(e.config) + a);
    assert EntryInput(f) + b == f.id + [0] + (Part(f.config) + b);
    TerminatedSplits(e.id, f.id, Part(e.config) + a, Part(f.config) + b);
    PartSplits(e.config, f.config, a, b);
  }

  lemma {:induction false} EntriesInputInjective(p: seq<StateEntry>, q: seq<StateEntry>)
    requires NulFreeIds(p) && NulFreeIds(q) && EntriesInput(p) == EntriesInput(q)
    ensures p == q
    decreases |p|
  {
    if p != [] && q != [] {
      EntrySplits(p[0], q[0], EntriesInput(p[1..]), EntriesInput(q[1..]));
      EntriesInputInjective(p[1..], q[1..]);
      assert p == [p[0]] + p[1..] && q == [q[0]] + q[1..];
    } else {
      NoEntriesNoBytes(p);
      NoEntriesNoBytes(q);
    }
  }

  lemma NoEntriesNoBytes(p: seq<StateEntry>)
    ensures EntriesInput(p) == [] <==> p == []
  {
  }

  /** With IDs free of NUL, the state, its presence and every entry can be told from the bytes that are hashed. */
  lemma StateInputInjective(c: Bytes, p: bool, es: seq<StateEntry>, d: Bytes, q: bool, fs: seq<StateEntry>)
    requires NulFreeIds(es) && NulFreeIds(fs) && StateInput(c, p, es) == StateInput(d, q, fs)
    ensures c == d && p == q && es == fs
  {
    SamePrefix([Flag(p)], [Flag(q)], Part(c) + EntriesInput(es), Part(d) + EntriesInput(fs));
    assert [Flag(p)][0] == [Flag(q)][0];
    PartSplits(c, d, EntriesInput(es), EntriesInput(fs));
    EntriesInputInjective(es, fs);
  }
}
