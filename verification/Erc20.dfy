/** ERC-20 `transfer` calldata: encoding it (EIP-20, "Methods"; Contract ABI Specification, "Function Selector
    and Argument Encoding"), parsing it back, and deciding whether a transaction pays an option. */
module Erc20 {
  import opened Wrappers

  // ---------------------------------------------------------------- hexadecimal

  predicate IsHexDigit(c: char) {
    '0' <= c <= '9' || 'a' <= c <= 'f' || 'A' <= c <= 'F'
  }

  predicate IsHex(s: string) {
    forall i :: 0 <= i < |s| ==> IsHexDigit(s[i])
  }

  function DigitValue(c: char): (d: nat)
    requires IsHexDigit(c)
    ensures d < 16
  {
    if c <= '9' then c as int - '0' as int
    else if c <= 'F' then c as int - 'A' as int + 10
    else c as int - 'a' as int + 10
  }

  function HexDigit(d: nat): (c: char)
    requires d < 16
    ensures IsHexDigit(c) && DigitValue(c) == d && LowerChar(c) == c
  {
    if d < 10 then (d + '0' as int) as char else (d - 10 + 'a' as int) as char
  }

  function LowerChar(c: char): char {
    if 'A' <= c <= 'Z' then (c as int - 'A' as int + 'a' as int) as char else c
  }

  /** `toLowerCase`, on the characters that occur here. */
  function Lower(s: string): (r: string)
    ensures |r| == |s| && forall i :: 0 <= i < |s| ==> r[i] == LowerChar(s[i])
  {
    seq(|s|, i requires 0 <= i < |s| => LowerChar(s[i]))
  }

  function HexValue(s: string): nat
    requires IsHex(s)
  {
    if s == "" then 0 else 16 * HexValue(s[..|s| - 1]) + DigitValue(s[|s| - 1])
  }

  function ToHex(n: nat, width: nat): (s: string)
    ensures |s| == width && IsHex(s) && Lower(s) == s
  {
    if width == 0 then "" else ToHex(n / 16, width - 1) + [HexDigit(n % 16)]
  }

  function Pow16(k: nat): (p: nat)
    ensures p >= 1
  {
    if k == 0 then 1 else 16 * Pow16(k - 1)
  }

  lemma {:induction false} ValueBelow(s: string)
    requires IsHex(s)
    ensures HexValue(s) < Pow16(|s|)
    decreases |s|
  {
    if s != "" {
      ValueBelow(s[..|s| - 1]);
    }
  }

  lemma {:induction false} HexValueSnoc(s: string, c: char)
    requires IsHex(s) && IsHexDigit(c)
    ensures IsHex(s + [c]) && HexValue(s + [c]) == 16 * HexValue(s) + DigitValue(c)
  {
    assert (s + [c])[..|s|] == s;
  }

  lemma {:induction false} ValueOfHex(n: nat, width: nat)
    requires n < Pow16(width)
    ensures HexValue(ToHex(n, width)) == n
    decreases width
  {
    if width > 0 {
      assert n / 16 < Pow16(width - 1);
      ValueOfHex(n / 16, width - 1);
      HexValueSnoc(ToHex(n / 16, width - 1), HexDigit(n % 16));
      assert ToHex(n, width) == ToHex(n / 16, width - 1) + [HexDigit(n % 16)];
      hide HexValue, ToHex, Pow16, IsHex;
    }
  }

  lemma {:induction false} HexOfValue(s: string)
    requires IsHex(s)
    ensures ToHex(HexValue(s), |s|) == Lower(s)
    decreases |s|
  {
    if s != "" {
      var init, last := s[..|s| - 1], s[|s| - 1];
      HexOfValue(init);
      DigitOfChar(last);
      assert HexValue(s) / 16 == HexValue(init) && HexValue(s) % 16 == DigitValue(last);
      assert Lower(s) == Lower(init) + [LowerChar(last)];
    }
  }

  lemma {:induction false} DigitOfChar(c: char)
    requires IsHexDigit(c)
    ensures HexDigit(DigitValue(c)) == LowerChar(c)
  {
  }

  /** Strings of the same width that differ only in letter case have the same value, and no others. */
  lemma {:induction false} SameValueExactly(s: string, t: string)
    requires IsHex(s) && IsHex(t) && |s| == |t|
    ensures HexValue(s) == HexValue(t) <==> Lower(s) == Lower(t)
  {
    HexOfValue(s);
    HexOfValue(t);
    LowerKeepsValue(s);
    LowerKeepsValue(t);
  }

  lemma {:induction false} LowerKeepsValue(s: string)
    requires IsHex(s)
    ensures IsHex(Lower(s)) && HexValue(Lower(s)) == HexValue(s)
  {
    HexOfValue(s);
    ValueBelow(s);
    ValueOfHex(HexValue(s), |s|);
  }

  // ---------------------------------------------------------------- calldata

  const SELECTOR := "a9059cbb"

  const PADDING := "000000000000000000000000"

  /** What a decoded transaction carries: 0x followed by hex digits. */
  type Calldata = s: string | |s| >= 2 && s[..2] == "0x" && IsHex(s[2..]) witness "0x"

  datatype Transaction = Transaction(to: Option<string>, data: Calldata)

  /** A 20-byte address in hex, in either case. */
  predicate IsAddress(s: string) {
    |s| == 42 && s[..2] == "0x" && IsHex(s[2..])
  }

  datatype Transfer = Transfer(address: string, amount: nat, symbol: string)

  predicate IsTransfer(data: Calldata) {
    |data| == 138 && data[2..10] == SELECTOR
  }

  /** `parseERC20Transfer`; None when it throws. */
  function Parse(tx: Transaction): Option<Transfer> {
    if !IsTransfer(tx.data) then None
    else
      var digits := tx.data[2..];
      assert tx.data[34..74] == digits[32..72] && tx.data[74..] == digits[72..];
      Some(Transfer("0x" + tx.data[34..74], HexValue(tx.data[74..]), if tx.to.Some? then tx.to.value else "null"))
  }

  /** transfer(address, amount): the selector, the address as a left-padded 32-byte word, the amount. */
  function Encode(address: nat, amount: nat): (data: string)
    ensures |data| == 138
  {
    "0x" + SELECTOR + PADDING + ToHex(address, 40) + ToHex(amount, 64)
  }

  lemma {:induction false} Slices(a: string, b: string, c: string, d: string, e: string)
    ensures var s := a + b + c + d + e;
            var i, j := |a| + |b|, |a| + |b| + |c|;
            && s[..|a|] == a && s[|a|..i] == b && s[i..j] == c && s[j..j + |d|] == d && s[j + |d|..] == e
            && s[|a|..] == b + c + d + e
  {
  }

  lemma {:induction false} IsHexAppend(s: string, t: string)
    requires IsHex(s) && IsHex(t)
    ensures IsHex(s + t)
  {
  }

  lemma {:induction false} EncodeSlices(address: nat, amount: nat)
    ensures var d := Encode(address, amount);
            && d[..2] == "0x" && d[2..10] == SELECTOR && d[10..34] == PADDING
            && d[34..74] == ToHex(address, 40) && d[74..] == ToHex(amount, 64) && IsHex(d[2..])
  {
    var a, b := ToHex(address, 40), ToHex(amount, 64);
    assert IsHex(SELECTOR) && IsHex(PADDING);
    hide ToHex, IsHex;
    Slices("0x", SELECTOR, PADDING, a, b);
    IsHexAppend(SELECTOR, PADDING);
    IsHexAppend(SELECTOR + PADDING, a);
    IsHexAppend(SELECTOR + PADDING + a, b);
  }

  /** Parsing what was encoded gives back every 160-bit address and 256-bit amount. */
  lemma {:induction false} ParseOfEncode(address: nat, amount: nat, to: Option<string>)
    requires address < Pow16(40) && amount < Pow16(64)
    ensures IsHex(Encode(address, amount)[2..]) && Encode(address, amount)[..2] == "0x"
    ensures var t := Parse(Transaction(to, Encode(address, amount)));
            && t.Some? && t.value.amount == amount && (to.Some? ==> t.value.symbol == to.value)
            && IsAddress(t.value.address) && HexValue(t.value.address[2..]) == address
  {
    EncodeSlices(address, amount);
    ValueOfHex(address, 40);
    ValueOfHex(amount, 64);
    assert ("0x" + ToHex(address, 40))[2..] == ToHex(address, 40);
  }

  lemma {:induction false} LowerSlice(s: string, i: nat, j: nat)
    requires i <= j <= |s|
    ensures Lower(s)[i..j] == Lower(s[i..j])
  {
  }

  lemma {:induction false} LowerConstants()
    ensures Lower("0x") == "0x" && Lower(SELECTOR) == SELECTOR
  {
  }

  lemma {:induction false} LowerZeros(s: string)
    requires |s| == |PADDING|
    ensures Lower(s) == PADDING <==> s == PADDING
  {
    if Lower(s) == PADDING {
      forall i | 0 <= i < |s|
        ensures s[i] == PADDING[i]
      {
        assert Lower(s)[i] == LowerChar(s[i]) == '0';
      }
    }
  }

  lemma {:induction false} LowerParts(data: Calldata)
    requires IsTransfer(data)
    ensures var l := Lower(data);
            && l[..2] == "0x" && l[2..10] == SELECTOR
            && l[34..74] == Lower(data[34..74]) && l[74..] == Lower(data[74..])
  {
    hide Lower, IsHex;
    LowerConstants();
    LowerSlice(data, 0, 2);
    LowerSlice(data, 2, 10);
    LowerSlice(data, 34, 74);
    LowerSlice(data, 74, 138);
  }

  lemma {:induction false} LowerPadding(data: Calldata)
    requires IsTransfer(data)
    ensures Lower(data)[10..34] == PADDING <==> data[10..34] == PADDING
  {
    hide Lower, IsHex;
    LowerSlice(data, 10, 34);
    LowerZeros(data[10..34]);
  }

  lemma {:induction false} SameSlices(d: string, l: string)
    requires |d| == |l| == 138
    ensures d == l <==>
              && d[..2] == l[..2] && d[2..10] == l[2..10] && d[10..34] == l[10..34]
              && d[34..74] == l[34..74] && d[74..] == l[74..]
  {
    assert d == d[..2] + d[2..10] + d[10..34] + d[34..74] + d[74..];
    assert l == l[..2] + l[2..10] + l[10..34] + l[34..74] + l[74..];
  }

  /** Re-encoding accepted calldata gives it back, up to letter case, exactly when its padding is zero. The
      parser itself never looks at the padding. */
  lemma {:induction false} EncodeOfParseExactly(data: Calldata)
    requires IsTransfer(data)
    ensures IsHex(data[34..74]) && IsHex(data[74..])
    ensures Encode(HexValue(data[34..74]), HexValue(data[74..])) == Lower(data) <==> data[10..34] == PADDING
  {
    var digits := data[2..];
    var address, amount := data[34..74], data[74..];
    assert address == digits[32..72] && amount == digits[72..];
    HexOfValue(address);
    HexOfValue(amount);
    EncodeSlices(HexValue(address), HexValue(amount));
    LowerParts(data);
    LowerPadding(data);
    SameSlices(Encode(HexValue(address), HexValue(amount)), Lower(data));
  }

  // ---------------------------------------------------------------- acceptance

  datatype Output = Output(address: string, amount: int)

  /** How amounts are read as JavaScript numbers: on the decoded transaction `parseInt` of a number, on the
      fetched one `parseInt` of a decimal string. Both are exact below 2^53. */
  datatype Reading = Reading(decoded: nat -> int, fetched: nat -> int)

  const MAX_EXACT := 0x20_0000_0000_0000

  ghost predicate Exact(read: Reading) {
    forall n: nat :: n < MAX_EXACT ==> read.decoded(n) == n && read.fetched(n) == n
  }

  predicate PaysFrom(transfer: Transfer, expected: Output, amount: int) {
    Lower(transfer.address) == Lower(expected.address) && expected.amount == amount
  }

  /** `verifyPayment`. The submitted hex is decoded; if it does not decode to a transfer, the transaction is
      fetched by its id. None stands for a step that throws. Only the first output is looked at. */
  function Verify(outputs: seq<Output>, token: Option<string>, decoded: Option<Transaction>,
          fetched: Option<Transaction>, read: Reading): bool {
    if outputs == [] then false
    else
      var first := if decoded.Some? then Parse(decoded.value) else None;
      if first.Some? then
        && token.Some? && Lower(first.value.symbol) == Lower(token.value)
        && PaysFrom(first.value, outputs[0], read.decoded(first.value.amount))
      else
        var second := if fetched.Some? && fetched.value.to.Some? then Parse(fetched.value) else None;
        && second.Some? && token.Some? && Lower(second.value.symbol) == token.value
        && PaysFrom(second.value, outputs[0], read.fetched(second.value.amount))
  }

  lemma {:induction false} SameAddressExactly(s: string, t: string)
    requires IsAddress(s) && IsAddress(t)
    ensures Lower(s) == Lower(t) <==> HexValue(s[2..]) == HexValue(t[2..])
  {
    SameValueExactly(s[2..], t[2..]);
    assert forall i :: 0 <= i < 40 ==> Lower(s[2..])[i] == Lower(s)[2 + i] && Lower(t[2..])[i] == Lower(t)[2 + i];
    assert s[0] == s[..2][0] && s[1] == s[..2][1] && t[0] == t[..2][0] && t[1] == t[..2][1];
    if Lower(s[2..]) == Lower(t[2..]) {
      assert forall i :: 0 <= i < 42 ==> Lower(s)[i] == if i < 2 then "0x"[i] else Lower(s[2..])[i - 2];
      assert forall i :: 0 <= i < 42 ==> Lower(t)[i] == if i < 2 then "0x"[i] else Lower(t[2..])[i - 2];
      assert Lower(s) == Lower(t);
    }
  }

  lemma {:induction false} ParsedAddress(tx: Transaction)
    requires IsTransfer(tx.data)
    ensures IsHex(tx.data[34..74]) && IsHex(tx.data[74..])
    ensures var t := Parse(tx).value;
            && IsAddress(t.address) && t.address[2..] == tx.data[34..74] && t.amount == HexValue(tx.data[74..])
  {
  }

  lemma {:induction false} EncodeInjective(data: Calldata, address: nat, amount: nat)
    requires IsTransfer(data) && IsHex(data[34..74]) && IsHex(data[74..])
    requires Lower(data) == Encode(address, amount) && address < Pow16(40) && amount < Pow16(64)
    ensures HexValue(data[34..74]) == address && HexValue(data[74..]) == amount
  {
    hide ToHex, Pow16, HexValue, Encode, Lower, IsHex;
    LowerParts(data);
    EncodeSlices(address, amount);
    LowerKeepsValue(data[34..74]);
    LowerKeepsValue(data[74..]);
    ValueOfHex(address, 40);
    ValueOfHex(amount, 64);
  }

  /** Equal fields make equal calldata, and equal calldata equal fields. */
  lemma {:induction false} CalldataExactly(data: Calldata, address: nat, amount: int)
    requires IsTransfer(data) && data[10..34] == PADDING && IsHex(data[34..74]) && IsHex(data[74..])
    requires address < Pow16(40) && amount < Pow16(64)
    ensures HexValue(data[34..74]) == address && HexValue(data[74..]) == amount <==>
            0 <= amount && Lower(data) == Encode(address, amount)
  {
    hide ToHex, Pow16, HexValue, Encode, Lower, IsHex;
    EncodeOfParseExactly(data);
    if 0 <= amount && Lower(data) == Encode(address, amount) {
      EncodeInjective(data, address, amount);
    }
  }

  /** The calldata with the padding of its address word, which the parser never reads, set to zero. */
  function ZeroPadded(data: Calldata): (r: Calldata)
    requires IsTransfer(data)
    ensures IsTransfer(r) && r[10..34] == PADDING && r[34..74] == data[34..74] && r[74..] == data[74..]
    ensures r == data <==> data[10..34] == PADDING
  {
    var r := data[..10] + PADDING + data[34..];
    PaddingSlices(data, r);
    r
  }

  lemma {:induction false} SplitTransfer(data: Calldata)
    requires IsTransfer(data)
    ensures IsHex(data[34..74]) && IsHex(data[74..])
  {
    assert data[34..74] == data[2..][32..72] && data[74..] == data[2..][72..];
  }

  lemma {:induction false} PaddingSlices(data: Calldata, r: string)
    requires IsTransfer(data) && r == data[..10] + PADDING + data[34..]
    ensures |r| == 138 && r[..2] == "0x" && IsHex(r[2..]) && r[2..10] == SELECTOR
    ensures r[10..34] == PADDING && r[34..74] == data[34..74] && r[74..] == data[74..]
    ensures r == data <==> data[10..34] == PADDING
  {
    var a, b := data[34..74], data[74..];
    SplitTransfer(data);
    assert IsHex(SELECTOR) && IsHex(PADDING);
    hide IsHex;
    assert data[..10] == "0x" + SELECTOR && data[34..] == a + b;
    assert r == "0x" + SELECTOR + PADDING + a + b;
    Slices("0x", SELECTOR, PADDING, a, b);
    IsHexAppend(SELECTOR, PADDING);
    IsHexAppend(SELECTOR + PADDING, a);
    IsHexAppend(SELECTOR + PADDING + a, b);
    SameSlices(r, data);
  }

  /** Equal fields make calldata equal but for the padding. */
  lemma {:induction false} FieldsExactly(data: Calldata, address: nat, amount: int)
    requires IsTransfer(data) && IsHex(data[34..74]) && IsHex(data[74..])
    requires address < Pow16(40) && amount < Pow16(64)
    ensures HexValue(data[34..74]) == address && HexValue(data[74..]) == amount <==>
            0 <= amount && Lower(ZeroPadded(data)) == Encode(address, amount)
  {
    hide *;
    CalldataExactly(ZeroPadded(data), address, amount);
  }

  /** A decoded transfer of less than 2^53 units is accepted exactly when it is addressed to the option's token and
      its calldata, padding aside, is the encoding of what the option asks for. */
  lemma {:induction false} AcceptedExactly(expected: Output, token: string, tx: Transaction,
          fetched: Option<Transaction>, read: Reading)
    requires Exact(read) && IsAddress(expected.address) && tx.to.Some?
    requires IsTransfer(tx.data)
    requires IsHex(tx.data[74..]) && HexValue(tx.data[74..]) < MAX_EXACT && expected.amount < Pow16(64)
    ensures Verify([expected], Some(token), Some(tx), fetched, read) <==>
            && Lower(tx.to.value) == Lower(token)
            && 0 <= expected.amount && Lower(ZeroPadded(tx.data)) ==
                Encode(HexValue(expected.address[2..]), expected.amount)
  {
    hide ToHex, Pow16, HexValue, Encode, Lower, IsHex, IsTransfer, ZeroPadded;
    ParsedAddress(tx);
    ValueBelow(expected.address[2..]);
    SameAddressExactly(Parse(tx).value.address, expected.address);
    FieldsExactly(tx.data, HexValue(expected.address[2..]), expected.amount);
  }

  /** When the submitted hex does not decode to a transfer, the fetched transaction is judged alike, except that
      the token must be given in lower case. */
  lemma {:induction false} FetchedAcceptedExactly(expected: Output, token: string, decoded: Option<Transaction>,
          tx: Transaction, read: Reading)
    requires Exact(read) && IsAddress(expected.address) && tx.to.Some?
    requires decoded.Some? ==> !IsTransfer(decoded.value.data)
    requires IsTransfer(tx.data)
    requires IsHex(tx.data[74..]) && HexValue(tx.data[74..]) < MAX_EXACT && expected.amount < Pow16(64)
    ensures Verify([expected], Some(token), decoded, Some(tx), read) <==>
            && Lower(tx.to.value) == token
            && 0 <= expected.amount && Lower(ZeroPadded(tx.data)) ==
                Encode(HexValue(expected.address[2..]), expected.amount)
  {
    hide ToHex, Pow16, HexValue, Encode, Lower, IsHex, IsTransfer, ZeroPadded;
    ParsedAddress(tx);
    ValueBelow(expected.address[2..]);
    SameAddressExactly(Parse(tx).value.address, expected.address);
    FieldsExactly(tx.data, HexValue(expected.address[2..]), expected.amount);
  }

  /** A token configured with an upper-case letter accepts no payment that is submitted by its transaction id. */
  lemma {:induction false} MixedCaseTokenNeverFetched(outputs: seq<Output>, token: string,
          decoded: Option<Transaction>, fetched: Option<Transaction>, read: Reading)
    requires token != Lower(token) && (decoded.Some? ==> !IsTransfer(decoded.value.data))
    ensures !Verify(outputs, Some(token), decoded, fetched, read)
  {
    if fetched.Some? && fetched.value.to.Some? {
      LowerTwice(fetched.value.to.value);
    }
  }

  lemma {:induction false} LowerTwice(s: string)
    ensures Lower(Lower(s)) == Lower(s)
  {
  }

  /** Accepted calldata is itself the encoding of what the option asks for exactly when its padding is zero. */
  lemma {:induction false} AcceptedEncodesExactly(expected: Output, token: string, tx: Transaction,
          fetched: Option<Transaction>, read: Reading)
    requires Exact(read) && IsAddress(expected.address) && tx.to.Some? && IsTransfer(tx.data)
    requires IsHex(tx.data[74..]) && HexValue(tx.data[74..]) < MAX_EXACT && expected.amount < Pow16(64)
    requires Verify([expected], Some(token), Some(tx), fetched, read)
    ensures 0 <= expected.amount
    ensures Lower(tx.data) == Encode(HexValue(expected.address[2..]), expected.amount) <==> tx.data[10..34] == PADDING
  {
    AcceptedExactly(expected, token, tx, fetched, read);
    var address := HexValue(expected.address[2..]);
    EncodeSlices(address, expected.amount);
    hide ToHex, Pow16, HexValue, Encode, Lower, IsHex, IsTransfer, Verify;
    LowerPadding(tx.data);
    LowerZeroPadded(tx.data);
  }

  lemma {:induction false} LowerZeroPadded(data: Calldata)
    requires IsTransfer(data)
    ensures data[10..34] == PADDING ==> Lower(ZeroPadded(data)) == Lower(data)
  {
  }

  lemma {:induction false} DecodedIsAccepted(expected: Output, token: string, tx: Transaction,
          fetched: Option<Transaction>, read: Reading, transfer: Transfer)
    requires Parse(tx) == Some(transfer) && Lower(transfer.symbol) == Lower(token)
    requires PaysFrom(transfer, expected, read.decoded(transfer.amount))
    ensures Verify([expected], Some(token), Some(tx), fetched, read)
  {
  }

  /** The transfer built for an option is accepted, whatever the case in which the token is written back. */
  lemma {:induction false} BuiltTransferIsAccepted(expected: Output, token: string, to: string,
          fetched: Option<Transaction>, read: Reading)
    requires Exact(read) && IsAddress(expected.address) && 0 <= expected.amount < MAX_EXACT
    requires Lower(to) == Lower(token)
    ensures var data := Encode(HexValue(expected.address[2..]), expected.amount);
            && IsHex(data[2..]) && data[..2] == "0x"
            && Verify([expected], Some(token), Some(Transaction(Some(to), data)), fetched, read)
  {
    hide ToHex, Pow16, HexValue, Encode, Lower, IsHex, Parse, Verify;
    var address, amount := HexValue(expected.address[2..]), expected.amount;
    ValueBelow(expected.address[2..]);
    SmallAmountFits(amount);
    ParseOfEncode(address, amount, Some(to));
    var tx := Transaction(Some(to), Encode(address, amount));
    var transfer := Parse(tx).value;
    SameAddressExactly(transfer.address, expected.address);
    DecodedIsAccepted(expected, token, tx, fetched, read, transfer);
  }

  lemma {:induction false} Pow16Grows(k: nat, j: nat)
    requires k <= j
    ensures Pow16(k) <= Pow16(j)
    decreases j
  {
    if k < j { Pow16Grows(k, j - 1); }
  }

  lemma {:induction false} SmallAmountFits(amount: nat)
    requires amount < MAX_EXACT
    ensures amount < Pow16(64)
  {
  }

  // ---------------------------------------------------------------- in digits

  const DIGITS := "0123456789abcdef"

  /** The digits and their values, in either case. */
  lemma {:induction false} DigitColumns(i: nat)
    requires i < 16
    ensures HexDigit(i) == DIGITS[i] && IsHexDigit(DIGITS[i]) && DigitValue(DIGITS[i]) == i
    ensures i >= 10 ==> var upper := "ABCDEF"[i - 10];
                        IsHexDigit(upper) && DigitValue(upper) == i && LowerChar(upper) == DIGITS[i]
  {
  }

  lemma {:induction false} LowerColumns(i: nat)
    requires i < 26
    ensures LowerChar("ABCDEFGHIJKLMNOPQRSTUVWXYZ"[i]) == "abcdefghijklmnopqrstuvwxyz"[i]
    ensures forall c: char :: c !in "ABCDEFGHIJKLMNOPQRSTUVWXYZ" ==> LowerChar(c) == c
  {
    var upper := "ABCDEFGHIJKLMNOPQRSTUVWXYZ";
    forall c: char | 'A' <= c <= 'Z'
      ensures c in upper
    {
      assert upper[c as int - 'A' as int] == c;
    }
  }

  /** Hexadecimal is positional, the most significant digit first: one more digit at the end multiplies by sixteen and
      adds the digit's place in the alphabet. */
  lemma {:induction false} HexColumns(s: string, i: nat)
    requires IsHex(s) && i < 16
    ensures IsHex("") && HexValue("") == 0
    ensures IsHex(s + [DIGITS[i]]) && HexValue(s + [DIGITS[i]]) == 16 * HexValue(s) + i
    ensures Pow16(0) == 1 && Pow16(i + 1) == 16 * Pow16(i)
  {
    DigitColumns(i);
    HexValueSnoc(s, DIGITS[i]);
  }

  lemma {:induction false} HexWord(s: string)
    requires IsHex(s) && Lower(s) == s
    ensures ToHex(HexValue(s), |s|) == s && HexValue(s) < Pow16(|s|)
  {
    HexOfValue(s);
    ValueBelow(s);
  }

  /** The calldata of transfer(address, amount) is its selector a9059cbb, the address padded on the left to 32 bytes,
      and the amount in 32 bytes. Such calldata parses to that address and amount, and they encode to it. */
  lemma {:induction false} TransferColumns(address: string, word: string, token: string)
    requires |address| == 40 && IsHex(address) && Lower(address) == address
    requires |word| == 64 && IsHex(word) && Lower(word) == word
    ensures var data := "0xa9059cbb" + "000000000000000000000000" + address + word;
            && |data| == 138 && data[..2] == "0x" && IsHex(data[2..])
            && Parse(Transaction(Some(token), data)) == Some(Transfer("0x" + address, HexValue(word), token))
            && Encode(HexValue(address), HexValue(word)) == data
  {
    var data := "0xa9059cbb" + "000000000000000000000000" + address + word;
    HexWord(address);
    HexWord(word);
    EncodeSlices(HexValue(address), HexValue(word));
    WholeTransfer(address, word);
    hide HexValue, ToHex, Lower, IsHex;
    assert Encode(HexValue(address), HexValue(word)) == data;
  }

  lemma {:induction false} WholeTransfer(address: string, word: string)
    requires |address| == 40 && |word| == 64
    ensures var data := "0xa9059cbb" + "000000000000000000000000" + address + word;
            && data == "0x" + "a9059cbb" + "000000000000000000000000" + address + word
            && |data| == 138 && data[..2] == "0x" && data[2..10] == "a9059cbb"
            && data[34..74] == address && data[74..] == word
  {
    assert "0xa9059cbb" == "0x" + "a9059cbb";
    Slices("0x", "a9059cbb", "000000000000000000000000", address, word);
  }

  /** Anything else of that length, or of another length, is not a transfer. */
  lemma {:induction false} NotATransfer(tx: Transaction)
    requires |tx.data| != 138 || tx.data[2..10] != "a9059cbb"
    ensures Parse(tx) == None
  {
  }

  lemma {:induction false} LeadingZeros(zeros: string, s: string)
    requires IsHex(s) && forall i :: 0 <= i < |zeros| ==> zeros[i] == '0'
    ensures IsHex(zeros + s) && HexValue(zeros + s) == HexValue(s)
    decreases |s|, |zeros|
  {
    if s != "" {
      var init, last := s[..|s| - 1], s[|s| - 1];
      LeadingZeros(zeros, init);
      HexValueSnoc(zeros + init, last);
      HexValueSnoc(init, last);
      assert zeros + s == zeros + init + [last] && s == init + [last];
    } else if zeros != "" {
      var fewer := zeros[..|zeros| - 1];
      LeadingZeros(fewer, "");
      HexValueSnoc(fewer, '0');
      assert zeros + "" == fewer + ['0'] && fewer + "" == fewer;
    }
    hide HexValue;
  }

  lemma {:induction false} TwoDigits(a: nat, b: nat)
    requires a < 16 && b < 16
    ensures IsHex([DIGITS[a], DIGITS[b]]) && HexValue([DIGITS[a], DIGITS[b]]) == 16 * a + b
  {
    HexColumns("", a);
    HexColumns([DIGITS[a]], b);
    assert "" + [DIGITS[a]] == [DIGITS[a]] && [DIGITS[a]] + [DIGITS[b]] == [DIGITS[a], DIGITS[b]];
  }

  const EXAMPLE_ADDRESS := "00000000000000000000000000000000000000ab"

  const EXAMPLE_AMOUNT := "00000000000000000000000000000000" + "0000000000000000000000000000000a"

  lemma {:induction false} ExampleAddress()
    ensures |EXAMPLE_ADDRESS| == 40 && IsHex(EXAMPLE_ADDRESS) && Lower(EXAMPLE_ADDRESS) == EXAMPLE_ADDRESS
    ensures HexValue(EXAMPLE_ADDRESS) == 171
  {
    var address := EXAMPLE_ADDRESS;
    TwoDigits(10, 11);
    assert forall i :: 0 <= i < 38 ==> address[i] == '0';
    LeadingZeros(address[..38], "ab");
    hide HexValue, Lower;
    assert address == address[..38] + "ab";
    LowerOfLower(address);
  }

  lemma {:induction false} ExampleAmount()
    ensures |EXAMPLE_AMOUNT| == 64 && IsHex(EXAMPLE_AMOUNT) && Lower(EXAMPLE_AMOUNT) == EXAMPLE_AMOUNT
    ensures HexValue(EXAMPLE_AMOUNT) == 10
  {
    var high, low := EXAMPLE_AMOUNT[..32], EXAMPLE_AMOUNT[32..];
    assert high == "00000000000000000000000000000000" && low == "0000000000000000000000000000000a";
    TwoDigits(0, 10);
    assert forall i :: 0 <= i < 32 ==> high[i] == '0';
    assert forall i :: 0 <= i < 30 ==> low[i] == '0';
    LeadingZeros(low[..30], "0a");
    assert low == low[..30] + "0a";
    LeadingZeros(high, low);
    hide HexValue, Lower;
    assert EXAMPLE_AMOUNT == high + low;
    LowerOfLower(low);
    LowerOfLower(high + low);
  }

  lemma {:induction false} LowerOfLower(s: string)
    requires forall i :: 0 <= i < |s| ==> LowerChar(s[i]) == s[i]
    ensures Lower(s) == s
  {
  }

  /** An example in full: 10 units to the address that ends in ab. */
  lemma {:induction false} TransferExample(token: string)
    ensures var data := "0xa9059cbb" + "000000000000000000000000" + EXAMPLE_ADDRESS + EXAMPLE_AMOUNT;
            && |data| == 138 && data[..2] == "0x" && IsHex(data[2..])
            && Parse(Transaction(Some(token), data)) == Some(Transfer("0x" + EXAMPLE_ADDRESS, 10, token))
            && Encode(171, 10) == data
  {
    ExampleAddress();
    ExampleAmount();
    hide Encode, Parse, HexValue, Lower, IsHex, EXAMPLE_ADDRESS, EXAMPLE_AMOUNT;
    TransferColumns(EXAMPLE_ADDRESS, EXAMPLE_AMOUNT, token);
  }

  /** Which transaction decides, and which reading of its amount. */
  lemma {:induction false} VerifyCases(expected: Output, more: seq<Output>, token: Option<string>,
          decoded: Option<Transaction>, fetched: Option<Transaction>, read: Reading)
    ensures !Verify([], token, decoded, fetched, read)
    ensures !Verify([expected] + more, None, decoded, fetched, read)
    ensures decoded.Some? && Parse(decoded.value).Some? && token.Some? ==>
              var t := Parse(decoded.value).value;
              (Verify([expected] + more, token, decoded, fetched, read) <==>
                 && Lower(t.symbol) == Lower(token.value) && Lower(t.address) == Lower(expected.address)
                 && read.decoded(t.amount) == expected.amount)
    ensures (decoded.None? || Parse(decoded.value).None?) && token.Some? && fetched.Some? && fetched.value.to.Some?
              && Parse(fetched.value).Some? ==>
              var t := Parse(fetched.value).value;
              (Verify([expected] + more, token, decoded, fetched, read) <==>
                 && Lower(t.symbol) == token.value && Lower(t.address) == Lower(expected.address)
                 && read.fetched(t.amount) == expected.amount)
    ensures (decoded.Some? ==> Parse(decoded.value).None?)
            && (fetched.Some? && fetched.value.to.Some? ==> Parse(fetched.value).None?) ==>
              !Verify([expected] + more, token, decoded, fetched, read)
  {
    hide Parse, Lower;
  }

  /** A transaction without a recipient is read as one to "null". */
  lemma {:induction false} NoRecipient(data: Calldata, to: string)
    requires |data| == 138 && data[2..10] == "a9059cbb"
    ensures var none, some := Parse(Transaction(None, data)), Parse(Transaction(Some(to), data));
            && none.Some? && some.Some?
            && none.value == some.value.(symbol := "null") && some.value.symbol == to
  {
  }

  /** Two to the power 53. */
  lemma {:induction false} MaxExactValue()
    ensures MAX_EXACT == 9007199254740992
  {
  }
}
