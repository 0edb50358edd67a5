/** The files of the per-envelope store: one record per file, its ID and attempt count in the file name. */
module StoreFormat {
  import opened Bytes
  import opened Telemetry
  import opened WalFormat

  // --- The record file: magic, payload size, payload, checksum.

  const RECORD_MAGIC: seq<byte> := [0x4e, 0x46, 0x57, 0x31]  // NFW1
  const RECORD_OVERHEAD: nat := 12

  function RecordFile(c: Codec, payload: seq<byte>): (s: seq<byte>)
    ensures |s| == RECORD_OVERHEAD + |payload|
  {
    RECORD_MAGIC + Big(|payload|, 4) + payload + Big(c.crc(payload), 4)
  }

  /** `decodeRecord`, and the check of `read` that the record is the one that the file name announces. */
  function ReadFile(c: Codec, data: seq<byte>, id: nat): Option<DiskRecord> {
    if |data| < RECORD_OVERHEAD || data[..4] != RECORD_MAGIC then None
    else
      var size := Number(data[4..8]);
      if size < 1 || size != |data| - RECORD_OVERHEAD then None
      else
        var payload := data[8..8 + size];
        if c.crc(payload) != Number(data[8 + size..]) then None
        else
          match DecodeRecord(c, payload, id)
          case Err(_) => None
          case Ok(record) => Some(record)
  }

  /** A record that the store can write: it encodes, to at least one byte and less than four gigabytes. */
  ghost predicate Storable(c: Codec, record: DiskRecord) {
    && c.marshal(record).Some? && 1 <= |c.marshal(record).value| < 0x1_0000_0000
    && record.id > 0 && record.enqueuedAt > 0
  }

  lemma FileParts(c: Codec, payload: seq<byte>)
    ensures var s := RecordFile(c, payload);
            s[..4] == RECORD_MAGIC && s[4..8] == Big(|payload|, 4) && s[8..8 + |payload|] == payload
            && s[8 + |payload|..] == Big(c.crc(payload), 4)
  {
    hide Big;
    Between(RECORD_MAGIC, Big(|payload|, 4), payload, Big(c.crc(payload), 4));
  }

  lemma Between<T>(a: seq<T>, b: seq<T>, m: seq<T>, z: seq<T>)
    ensures var s := a + b + m + z;
            s[..|a|] == a && s[|a|..|a + b|] == b && s[|a + b|..|a + b + m|] == m && s[|a + b + m|..] == z
  {
    assert a + b + m + z == a + (b + m + z);
    assert a + b + m + z == (a + b) + (m + z);
  }

  /** What was written reads back, under its own ID and no other. */
  lemma FileRoundTrip(c: Codec, record: DiskRecord, id: nat)
    requires c.Lawful() && Storable(c, record)
    ensures ReadFile(c, RecordFile(c, c.marshal(record).value), id) == if id == record.id then Some(record) else None
  {
    var payload := c.marshal(record).value;
    FileParts(c, payload);
    Capacities();
    BigRoundTrip(|payload|, 4);
    BigRoundTrip(c.crc(payload), 4);
  }

  /** A file that is cut short, or longer than it should be, is never taken for a record. */
  lemma OtherLengthRefused(c: Codec, record: DiskRecord, data: seq<byte>, id: nat)
    requires c.Lawful() && Storable(c, record)
    requires var s := RecordFile(c, c.marshal(record).value); data != s && (data <= s || s <= data)
    ensures ReadFile(c, data, id) == None
  {
    var payload := c.marshal(record).value;
    var s := RecordFile(c, payload);
    FileParts(c, payload);
    Capacities();
    BigRoundTrip(|payload|, 4);
    if |data| >= RECORD_OVERHEAD {
      assert data[..4] == s[..4] && data[4..8] == s[4..8];
    }
  }

  // --- The file name: both numbers padded with zeros.

  function Digit(d: nat): char
    requires d < 10
  {
    '0' + d as char
  }

  function Decimal(n: nat): (s: string)
    ensures |s| >= 1
  {
    if n < 10 then [Digit(n)] else Decimal(n / 10) + [Digit(n % 10)]
  }

  function Zeros(n: nat): (s: string)
    ensures |s| == n
  {
    seq(n, _ => '0')
  }

  /** `%0*d`: at least `width` digits. */
  function Padded(n: nat, width: nat): (s: string)
    ensures |s| >= width
  {
    var digits := Decimal(n);
    Zeros(if |digits| < width then width - |digits| else 0) + digits
  }

  predicate IsDigit(c: char) {
    '0' <= c <= '9'
  }

  /** The number that a string of digits denotes, if it is one. */
  function Digits(s: string): Option<nat> {
    if s == "" then Some(0)
    else if !IsDigit(s[|s| - 1]) then None
    else
      match Digits(s[..|s| - 1])
      case None => None
      case Some(n) => Some(10 * n + (s[|s| - 1] as nat - '0' as nat))
  }

  /** `ParseUint`: digits that denote a 64-bit number. */
  function ParseUint(s: string): Option<nat> {
    match Digits(s)
    case None => None
    case Some(n) => if s != "" && n < 0x1_0000_0000_0000_0000 then Some(n) else None
  }

  /** `Atoi`, for five characters without a minus sign: a plus sign may stand in front. */
  function Atoi(s: string): Option<nat> {
    if s != "" && s[0] == '+' then (if |s| == 1 then None else Digits(s[1..])) else if s == "" then None else Digits(s)
  }

  const ID_WIDTH: nat := 20
  const ATTEMPT_WIDTH: nat := 5
  const ATTEMPTS_IN_NAME: nat := 99_999
  const SUFFIX := ".wal"

  function ActiveName(id: nat, attempts: nat): string {
    Padded(id, ID_WIDTH) + "-" + Padded(attempts, ATTEMPT_WIDTH) + SUFFIX
  }

  /** `parseActiveFilename`: two parts of the right lengths around the only dash. */
  function ParseName(name: string): Option<(nat, nat)> {
    if |name| != ID_WIDTH + 1 + ATTEMPT_WIDTH + |SUFFIX| || name[26..] != SUFFIX || name[20] != '-' then None
    else
      var first, second := name[..20], name[21..26];
      if '-' in first || '-' in second then None
      else
        match (ParseUint(first), Atoi(second))
        case (Some(id), Some(attempts)) => if id > 0 then Some((id, attempts)) else None
        case _ => None
  }

  /** 10 to the power `k`. */
  function Tens(k: nat): (r: nat)
    ensures r >= 1
  {
    if k == 0 then 1 else 10 * Tens(k - 1)
  }

  lemma {:induction false} DecimalSize(n: nat, k: nat)
    requires k >= 1
    ensures |Decimal(n)| <= k <==> n < Tens(k)
  {
    if n >= 10 {
      if k == 1 {
        assert Tens(1) == 10;
      } else {
        DecimalSize(n / 10, k - 1);
        assert n / 10 < Tens(k - 1) <==> n < 10 * Tens(k - 1);
      }
    } else {
      assert Tens(k) >= 10;
    }
  }

  lemma {:induction false} DigitsOfDecimal(zeros: nat, n: nat)
    ensures Digits(Zeros(zeros) + Decimal(n)) == Some(n)
    ensures forall c :: c in Zeros(zeros) + Decimal(n) ==> IsDigit(c)
    decreases n, zeros
  {
    var s := Zeros(zeros) + Decimal(n);
    if n >= 10 {
      assert s[..|s| - 1] == Zeros(zeros) + Decimal(n / 10);
      DigitsOfDecimal(zeros, n / 10);
    } else {
      assert s[..|s| - 1] == Zeros(zeros);
      ZerosMeanNothing(zeros);
    }
  }

  lemma {:induction false} ZerosMeanNothing(n: nat)
    ensures Digits(Zeros(n)) == Some(0)
  {
    if n > 0 {
      assert Zeros(n)[..n - 1] == Zeros(n - 1);
      ZerosMeanNothing(n - 1);
    }
  }

  lemma PaddedIs(n: nat, width: nat)
    requires width >= 1
    ensures Digits(Padded(n, width)) == Some(n)
    ensures forall c :: c in Padded(n, width) ==> IsDigit(c)
    ensures |Padded(n, width)| == width <==> n < Tens(width)
  {
    DigitsOfDecimal(if |Decimal(n)| < width then width - |Decimal(n)| else 0, n);
    DecimalSize(n, width);
  }

  lemma TensAre()
    ensures Tens(5) == 100_000 && Tens(20) == 100_000_000_000_000_000_000
  {
    assert Tens(5) == 10 * (10 * (10 * (10 * (10 * Tens(0)))));
    assert Tens(10) == 10 * (10 * (10 * (10 * (10 * Tens(5)))));
    assert Tens(15) == 10 * (10 * (10 * (10 * (10 * Tens(10)))));
    assert Tens(20) == 10 * (10 * (10 * (10 * (10 * Tens(15)))));
  }

  /** The name of a file gives back ID and attempts exactly up to the attempt count at which `MarkRetry` stops. */
  lemma NameRoundTrip(id: nat, attempts: nat)
    requires 0 < id && FitsU64(id)
    ensures ParseName(ActiveName(id, attempts)) == Some((id, attempts)) <==> attempts <= ATTEMPTS_IN_NAME
  {
    var first, second := Padded(id, ID_WIDTH), Padded(attempts, ATTEMPT_WIDTH);
    TensAre();
    PaddedIs(id, ID_WIDTH);
    PaddedIs(attempts, ATTEMPT_WIDTH);
    var name := ActiveName(id, attempts);
    assert |first| == 20;
    if attempts <= ATTEMPTS_IN_NAME {
      assert name[..20] == first && name[20] == '-' && name[21..26] == second && name[26..] == SUFFIX;
      assert !IsDigit('+') && !IsDigit('-');
    } else {
      assert |name| > 30;
    }
  }

  // --- The number that recovery takes from any file name, to stay above every ID in use.

  function BeforeDash(name: string): string {
    if name == "" || name[0] == '-' then "" else [name[0]] + BeforeDash(name[1..])
  }

  function WithoutZeros(s: string): string {
    if s != "" && s[0] == '0' then WithoutZeros(s[1..]) else s
  }

  /** `bumpSequence`. */
  function Bumped(next: nat, name: string): nat {
    match ParseUint(WithoutZeros(BeforeDash(name)))
    case None => next
    case Some(id) => if id >= next then id + 1 else next
  }

  lemma {:induction false} BeforeDashOf(a: string, b: string)
    requires '-' !in a
    ensures BeforeDash(a + "-" + b) == a
  {
    if a != "" {
      assert (a + "-" + b)[1..] == a[1..] + "-" + b;
      BeforeDashOf(a[1..], b);
    } else {
      assert (a + "-" + b)[0] == '-';
    }
  }

  lemma {:induction false} WithoutZerosIs(s: string)
    ensures Digits(WithoutZeros(s)) == Digits(s)
  {
    if s != "" && s[0] == '0' {
      LeadingZero(s);
      WithoutZerosIs(s[1..]);
    }
  }

  lemma {:induction false} LeadingZero(s: string)
    requires s != "" && s[0] == '0'
    ensures Digits(s[1..]) == Digits(s)
  {
    if |s| > 1 {
      assert s[1..][..|s| - 2] == s[..|s| - 1][1..];
      LeadingZero(s[..|s| - 1]);
    } else {
      assert s[..0] == "" && s[1..] == "";
      assert Digits(s[..|s| - 1]) == Some(0);
    }
  }

  /** The next ID ends up above the ID in a valid name. */
  lemma BumpedAbove(next: nat, name: string)
    requires ParseName(name).Some?
    ensures Bumped(next, name) > ParseName(name).value.0 && Bumped(next, name) >= next
  {
    var first, id := name[..20], ParseName(name).value.0;
    assert name == first + "-" + name[21..];
    BeforeDashOf(first, name[21..]);
    WithoutZerosIs(first);
    assert Digits("") == Some(0);
  }
}
