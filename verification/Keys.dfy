/** The physical keys under which records are stored. Every key constructor
    comes with the parser that inverts it, so distinct records in one table can
    never share a key. */
module Keys {
  import opened Types

  function HexDigit(n: nat): (c: char)
    requires n < 16
    ensures HexValue(c) == n && IsHex(c)
  {
    if n < 10 then '0' + n as char else 'a' + (n - 10) as char
  }

  predicate IsHex(c: char) { '0' <= c <= '9' || 'a' <= c <= 'f' }

  function HexValue(c: char): (n: nat)
    ensures n < 16
  {
    if '0' <= c <= '9' then (c - '0') as nat
    else if 'a' <= c <= 'f' then (c - 'a') as nat + 10
    else 0
  }

  /** Lower-case hexadecimal, two characters a byte. */
  function Hex(bytes: seq<byte>): (s: string)
    ensures |s| == 2 * |bytes| && forall i | 0 <= i < |s| :: IsHex(s[i])
    ensures UnHex(s) == bytes
  {
    if bytes == [] then []
    else
      var b := bytes[0] as nat;
      var s := [HexDigit(b / 16), HexDigit(b % 16)] + Hex(bytes[1..]);
      assert s[2..] == Hex(bytes[1..]);
      s
  }

  function UnHex(s: string): (bytes: seq<byte>) {
    if |s| < 2 then []
    else [(HexValue(s[0]) * 16 + HexValue(s[1])) as byte] + UnHex(s[2..])
  }

  function Digit(n: nat): (c: char)
    requires n < 10
    ensures IsDigit(c) && (c - '0') as nat == n
  {
    '0' + n as char
  }

  predicate IsDigit(c: char) { '0' <= c <= '9' }

  /** Decimal without leading zeros. */
  function Decimal(n: nat): (s: string)
    ensures |s| > 0 && forall c | c in s :: IsDigit(c)
    ensures FromDecimal(s) == n
  {
    if n < 10 then [Digit(n)] else Decimal(n / 10) + [Digit(n % 10)]
  }

  /** The number a string of digits denotes. */
  function FromDecimal(s: string): (n: nat) {
    if s == [] then 0
    else
      var last := s[|s| - 1];
      FromDecimal(s[..|s| - 1]) * 10 + if IsDigit(last) then (last - '0') as nat else 0
  }

  function Zeros(n: nat): (s: string)
    ensures |s| == n && forall c | c in s :: c == '0'
  {
    seq(n, _ => '0')
  }

  lemma {:induction false} LeadingZeros(n: nat, s: string)
    ensures FromDecimal(Zeros(n) + s) == FromDecimal(s)
  {
    var z := Zeros(n) + s;
    if s != [] {
      assert z[..|z| - 1] == Zeros(n) + s[..|s| - 1];
      LeadingZeros(n, s[..|s| - 1]);
    } else if n > 0 {
      assert z[..|z| - 1] == Zeros(n - 1) + s;
      LeadingZeros(n - 1, s);
    } else {
      assert z == s;
    }
  }

  /** A block height, zero-padded to at least 32 digits. */
  function HeightKey(height: nat): (key: string)
    ensures |key| >= 32 && FromDecimal(key) == height
  {
    var digits := Decimal(height);
    if |digits| >= 32 then digits
    else
      LeadingZeros(32 - |digits|, digits);
      Zeros(32 - |digits|) + digits
  }

  function IdKey(id: Identifier): (key: string)
    ensures |key| == 2 * |id| && !IsSystemKey(key) && UnHex(key) == id
  {
    Hex(id)
  }

  const SYSTEM_PREFIX := "system_tx_result_"

  predicate IsSystemKey(key: string) { |key| > 0 && key[0] == 's' }

  /** Results of system transactions live in the same table as those of user
      transactions, under the block and the transaction together. No such key is
      the key of a user transaction. */
  function SystemResultKey(blockID: Identifier, txID: Identifier): (key: string)
    ensures |key| == 2 * |blockID| + 2 * |txID| + 18 && IsSystemKey(key)
    ensures SystemKeyBlock(key) == blockID && SystemKeyTransaction(key) == txID
  {
    var b, t := Hex(blockID), Hex(txID);
    var key := SYSTEM_PREFIX + b + "_" + t;
    assert |SYSTEM_PREFIX| == 17 && SYSTEM_PREFIX[0] == 's';
    assert key[17..] == b + "_" + t;
    SplitAtSeparator(b, t);
    key
  }

  /** The part of a string before its first underscore. */
  function BeforeSeparator(s: string): (head: string)
    ensures |head| <= |s|
  {
    if s == [] || s[0] == '_' then [] else [s[0]] + BeforeSeparator(s[1..])
  }

  lemma {:induction false} SplitAtSeparator(b: string, t: string)
    requires forall i | 0 <= i < |b| :: IsHex(b[i])
    ensures BeforeSeparator(b + "_" + t) == b
    ensures (b + "_" + t)[|b| + 1..] == t
  {
    if b != [] {
      SplitAtSeparator(b[1..], t);
      assert (b + "_" + t)[1..] == b[1..] + "_" + t;
    }
  }

  function SystemKeyBlock(key: string): (id: seq<byte>) {
    if |key| >= 17 then UnHex(BeforeSeparator(key[17..])) else []
  }

  function SystemKeyTransaction(key: string): (id: seq<byte>) {
    if |key| >= 17 && |BeforeSeparator(key[17..])| < |key| - 17
    then UnHex(key[17..][|BeforeSeparator(key[17..])| + 1..]) else []
  }

  const SCHEDULED_PREFIX := "scheduled_tx_"

  function ScheduledKey(scheduledID: nat): (key: string)
    ensures ScheduledKeyNumber(key) == scheduledID
  {
    var key := SCHEDULED_PREFIX + Decimal(scheduledID);
    assert |SCHEDULED_PREFIX| == 13 && key[13..] == Decimal(scheduledID);
    key
  }

  function ScheduledKeyNumber(key: string): (n: nat) {
    if |key| >= 13 then FromDecimal(key[13..]) else 0
  }

  const LATEST_BLOCK_KEY := "latest_block_height"
  const FORKED_BLOCK_KEY := "forked_block_height"
}
