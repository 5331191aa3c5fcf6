/** Packed V3 paths (encoder/v3_path.py): 20 address bytes, then 3 big-endian fee bytes and 20 address
    bytes per hop. */
module V3Path {
  import opened Wrappers
  import opened Sequences
  import opened Models
  import opened Multicall

  function HexDigit(c: char): Option<nat> {
    if '0' <= c <= '9' then Some((c as int - '0' as int) as nat)
    else if 'a' <= c <= 'f' then Some((c as int - 'a' as int + 10) as nat)
    else if 'A' <= c <= 'F' then Some((c as int - 'A' as int + 10) as nat)
    else None
  }

  /** ASCII white space, which Python's `bytes.fromhex` skips between byte pairs. */
  predicate IsBlank(c: char) {
    c == ' ' || '\t' <= c <= '\r'
  }

  /** `bytes.fromhex`; None where it raises. */
  function FromHex(s: string): Option<Bytes> {
    if s == [] then Some([])
    else if IsBlank(s[0]) then FromHex(s[1..])
    else if |s| < 2 || HexDigit(s[0]).None? || HexDigit(s[1]).None? then None
    else
      var rest := FromHex(s[2..]);
      if rest.None? then None else Some([16 * HexDigit(s[0]).value + HexDigit(s[1]).value] + rest.value)
  }

  function Blanks(s: string): nat {
    if s == [] then 0 else (if IsBlank(s[0]) then 1 else 0) + Blanks(s[1..])
  }

  predicate LooksLikeAddress(token: Token) {
    |token| == 42 && token[..2] == "0x"
  }

  /** A token that is 40 hex digits after its prefix. */
  predicate IsAddress(token: Token) {
    LooksLikeAddress(token) && forall i :: 2 <= i < 42 ==> HexDigit(token[i]).Some?
  }

  /** What the ABI encoder takes for an address: 40 hex digits, with or without the prefix. */
  predicate HexAddress(t: string) {
    var digits := if |t| >= 2 && (t[..2] == "0x" || t[..2] == "0X") then t[2..] else t;
    |digits| == 40 && forall i :: 0 <= i < 40 ==> HexDigit(digits[i]).Some?
  }

  lemma HexOfAddress(t: Token)
    requires IsAddress(t)
    ensures HexAddress(t)
  {
    assert forall i :: 0 <= i < 40 ==> t[2..][i] == t[i + 2];
  }

  datatype PathError = TooFewTokens | FeeCount | BadAddress | BadHex | BadFee

  /** `int.to_bytes(3, "big")` of a fee in range. */
  function FeeBytes(fee: nat): (b: Bytes)
    requires fee < 0x1_000_000
  {
    [fee / 0x10000, fee / 0x100 % 0x100, fee % 0x100]
  }

  function FeeValue(b: Bytes): nat
    requires |b| == 3
  {
    (b[0] as nat) * 0x10000 + (b[1] as nat) * 0x100 + b[2] as nat
  }

  /** The packing of tokens and fees from position `i` on. */
  function PackFrom(tokens: seq<Token>, fees: seq<int>, i: nat): Result<Bytes, PathError>
    requires i <= |tokens|
    decreases |tokens| - i
  {
    if i == |tokens| then Success([])
    else if !LooksLikeAddress(tokens[i]) then Failure(BadAddress)
    else
      var address := FromHex(tokens[i][2..]);
      if address.None? then Failure(BadHex)
      else if i < |fees| && !(0 <= fees[i] < 0x1_000_000) then Failure(BadFee)
      else
        var rest := PackFrom(tokens, fees, i + 1);
        if rest.Failure? then rest
        else Success(address.value + (if i < |fees| then FeeBytes(fees[i]) else []) + rest.value)
  }

  function Pack(tokens: seq<Token>, fees: seq<int>): Result<Bytes, PathError> {
    if |tokens| < 2 then Failure(TooFewTokens)
    else if |fees| != |tokens| - 1 then Failure(FeeCount)
    else PackFrom(tokens, fees, 0)
  }

  /** `pack_v3_path`: the loop that grows the byte array. */
  method PackV3Path(tokens: seq<Token>, fees: seq<int>) returns (r: Result<Bytes, PathError>)
    ensures r == Pack(tokens, fees)
  {
    if |tokens| < 2 {
      return Failure(TooFewTokens);
    }
    if |fees| != |tokens| - 1 {
      return Failure(FeeCount);
    }
    var out: Bytes := [];
    assert Pack(tokens, fees) == Glue([], PackFrom(tokens, fees, 0)) by {
      GlueEmpty(PackFrom(tokens, fees, 0));
    }
    for i := 0 to |tokens|
      invariant Pack(tokens, fees) == Glue(out, PackFrom(tokens, fees, i))
    {
      if !LooksLikeAddress(tokens[i]) {
        return Failure(BadAddress);
      }
      var address := FromHex(tokens[i][2..]);
      if address.None? {
        return Failure(BadHex);
      }
      PackStep(tokens, fees, i, out);
      out := out + address.value;
      if i < |fees| {
        if !(0 <= fees[i] < 0x1_000_000) {
          return Failure(BadFee);
        }
        out := out + FeeBytes(fees[i]);
      }
    }
    assert out + [] == out;
    return Success(out);
  }

  /** Bytes already written, in front of what is still to come. */
  function Glue(out: Bytes, rest: Result<Bytes, PathError>): Result<Bytes, PathError> {
    if rest.Failure? then rest else Success(out + rest.value)
  }

  lemma GlueEmpty(rest: Result<Bytes, PathError>)
    ensures Glue([], rest) == rest
  {
    if rest.Success? {
      assert [] + rest.value == rest.value;
    }
  }

  lemma PackStep(tokens: seq<Token>, fees: seq<int>, i: nat, out: Bytes)
    requires i < |tokens| && LooksLikeAddress(tokens[i]) && FromHex(tokens[i][2..]).Some?
    ensures var address := FromHex(tokens[i][2..]).value;
            Glue(out, PackFrom(tokens, fees, i))
            == if i >= |fees| then Glue(out + address, PackFrom(tokens, fees, i + 1))
               else if !(0 <= fees[i] < 0x1_000_000) then Failure(BadFee)
               else Glue(out + address + FeeBytes(fees[i]), PackFrom(tokens, fees, i + 1))
  {
    var address := FromHex(tokens[i][2..]).value;
    var rest := PackFrom(tokens, fees, i + 1);
    if rest.Success? {
      if i >= |fees| {
        AppendAssoc(out, address, rest.value);
        assert address + [] == address;
      } else if 0 <= fees[i] < 0x1_000_000 {
        AppendAssoc(out, address, FeeBytes(fees[i]));
        AppendAssoc(out, address + FeeBytes(fees[i]), rest.value);
      }
    }
  }

  function HexChar(d: nat): char
    requires d < 16
  {
    if d < 10 then ('0' as int + d) as char else ('a' as int + d - 10) as char
  }

  function ToHex(b: Bytes): string {
    if b == [] then [] else [HexChar(b[0] / 16), HexChar(b[0] % 16)] + ToHex(b[1..])
  }

  function LowerChar(c: char): char {
    if 'A' <= c <= 'Z' then ((c as int - 'A' as int) + 'a' as int) as char else c
  }

  function Lower(s: string): string {
    seq(|s|, i requires 0 <= i < |s| => LowerChar(s[i]))
  }

  /** Reads a packed path back, the way the on-chain router walks it. */
  function Parse(b: Bytes): Option<(seq<Token>, seq<nat>)> {
    if |b| == 20 then Some((["0x" + ToHex(b)], []))
    else if |b| < 43 then None
    else
      var rest := Parse(b[23..]);
      if rest.None? then None
      else
        Some((["0x" + ToHex(b[..20])] + rest.value.0, [FeeValue(b[20..23])] + rest.value.1))
  }

  /** Every two characters that are not blanks make one byte. */
  lemma {:induction false} FromHexLength(s: string)
    requires FromHex(s).Some?
    ensures 2 * |FromHex(s).value| == |s| - Blanks(s)
    decreases |s|
  {
    if s != [] {
      if IsBlank(s[0]) {
        FromHexLength(s[1..]);
      } else {
        FromHexLength(s[2..]);
        assert Blanks(s) == Blanks(s[1..]);
        assert s[1..][1..] == s[2..];
        assert !IsBlank(s[1]);
      }
    }
  }

  lemma HexPair(hi: char, lo: char)
    requires HexDigit(hi).Some? && HexDigit(lo).Some?
    ensures ToHex([16 * HexDigit(hi).value + HexDigit(lo).value]) == [LowerChar(hi), LowerChar(lo)]
  {
    HexCase(hi);
    HexCase(lo);
    var b: Byte := 16 * HexDigit(hi).value + HexDigit(lo).value;
    assert b / 16 == HexDigit(hi).value && b % 16 == HexDigit(lo).value;
    assert ToHex([b]) == [HexChar(b / 16), HexChar(b % 16)] + ToHex([]);
  }

  lemma HexCase(c: char)
    requires HexDigit(c).Some?
    ensures HexChar(HexDigit(c).value) == LowerChar(c)
  {
  }

  /** Without blanks, hex decoding forgets only the case of the digits. */
  lemma {:induction false} HexRoundTrip(s: string)
    requires FromHex(s).Some? && Blanks(s) == 0
    ensures ToHex(FromHex(s).value) == Lower(s)
    decreases |s|
  {
    if s != [] {
      var b := FromHex(s).value;
      assert s[1..][1..] == s[2..];
      assert Blanks(s[2..]) == 0;
      HexRoundTrip(s[2..]);
      HexPair(s[0], s[1]);
      assert b == [b[0]] + FromHex(s[2..]).value;
      assert ToHex(b) == ToHex([b[0]]) + ToHex(b[1..]);
      assert Lower(s) == [LowerChar(s[0]), LowerChar(s[1])] + Lower(s[2..]);
    }
  }

  predicate BlankFree(t: Token) {
    |t| >= 2 ==> Blanks(t[2..]) == 0
  }

  predicate NoBlanks(tokens: seq<Token>, from: nat) {
    forall k :: from <= k < |tokens| ==> BlankFree(tokens[k])
  }

  function LowerAll(tokens: seq<Token>): seq<Token> {
    seq(|tokens|, i requires 0 <= i < |tokens| => Lower(tokens[i]))
  }

  lemma PackedToken(t: Token)
    requires LooksLikeAddress(t) && FromHex(t[2..]).Some?
    ensures |FromHex(t[2..]).value| <= 20
    ensures |FromHex(t[2..]).value| == 20 <==> Blanks(t[2..]) == 0
    ensures Blanks(t[2..]) == 0 ==> "0x" + ToHex(FromHex(t[2..]).value) == Lower(t)
  {
    FromHexLength(t[2..]);
    if Blanks(t[2..]) == 0 {
      HexRoundTrip(t[2..]);
      assert t == "0x" + t[2..];
      assert Lower("0x") == "0x";
      assert Lower(t) == Lower("0x") + Lower(t[2..]);
    }
  }

  lemma {:induction false} PackedLength(tokens: seq<Token>, fees: seq<int>, i: nat)
    requires i < |tokens| && |fees| == |tokens| - 1 && PackFrom(tokens, fees, i).Success?
    ensures var len := 20 + 23 * (|tokens| - 1 - i);
      && |PackFrom(tokens, fees, i).value| <= len
      && (|PackFrom(tokens, fees, i).value| == len <==> NoBlanks(tokens, i))
    decreases |tokens| - i
  {
    PackedToken(tokens[i]);
    if i + 1 < |tokens| {
      PackedLength(tokens, fees, i + 1);
    }
  }

  lemma {:induction false} ParsePacked(tokens: seq<Token>, fees: seq<int>, i: nat)
    requires i < |tokens| && |fees| == |tokens| - 1 && PackFrom(tokens, fees, i).Success?
    requires NoBlanks(tokens, i)
    ensures var parsed := Parse(PackFrom(tokens, fees, i).value);
            parsed.Some? && parsed.value.0 == LowerAll(tokens[i..]) && parsed.value.1 == fees[i..]
    decreases |tokens| - i
  {
    PackedToken(tokens[i]);
    var address := FromHex(tokens[i][2..]).value;
    if i + 1 == |tokens| {
      assert PackFrom(tokens, fees, i + 1).value == [];
      assert PackFrom(tokens, fees, i).value == address;
      assert LowerAll(tokens[i..]) == [Lower(tokens[i])];
    } else {
      ParsePacked(tokens, fees, i + 1);
      PackedLength(tokens, fees, i + 1);
      ParseOneMore(tokens, fees, i);
    }
  }

  lemma ParseOneMore(tokens: seq<Token>, fees: seq<int>, i: nat)
    requires i + 1 < |tokens| && |fees| == |tokens| - 1 && PackFrom(tokens, fees, i).Success?
    requires BlankFree(tokens[i])
    requires var rest := PackFrom(tokens, fees, i + 1).value;
             |rest| >= 20 && Parse(rest) == Some((LowerAll(tokens[i + 1..]), fees[i + 1..]))
    ensures Parse(PackFrom(tokens, fees, i).value) == Some((LowerAll(tokens[i..]), fees[i..]))
  {
    PackedToken(tokens[i]);
    FeeRoundTrip(fees[i]);
    ParseHop(FromHex(tokens[i][2..]).value, FeeBytes(fees[i]), PackFrom(tokens, fees, i + 1).value);
    assert LowerAll(tokens[i..]) == [Lower(tokens[i])] + LowerAll(tokens[i + 1..]);
    assert fees[i..] == [fees[i]] + fees[i + 1..];
  }

  lemma {:induction false} ParseHop(address: Bytes, fee: Bytes, rest: Bytes)
    requires |address| == 20 && |fee| == 3 && |rest| >= 20 && Parse(rest).Some?
    ensures Parse(address + fee + rest)
         == Some((["0x" + ToHex(address)] + Parse(rest).value.0, [FeeValue(fee)] + Parse(rest).value.1))
  {
    var b := address + fee + rest;
    assert b[..20] == address && b[20..23] == fee && b[23..] == rest;
  }

  lemma FeeRoundTrip(fee: nat)
    requires fee < 0x1_000_000
    ensures FeeValue(FeeBytes(fee)) == fee
  {
  }

  /** What the packer finds wrong with a token or the fee that follows it, in the order it looks. */
  ghost predicate FailsAt(tokens: seq<Token>, fees: seq<int>, i: nat, error: PathError) {
    && i < |tokens|
    && match error
       case BadAddress => |tokens[i]| != 42 || tokens[i][..2] != "0x"
       case BadHex => |tokens[i]| == 42 && tokens[i][..2] == "0x" && FromHex(tokens[i][2..]).None?
       case BadFee =>
         && |tokens[i]| == 42 && tokens[i][..2] == "0x" && FromHex(tokens[i][2..]).Some?
         && i < |fees| && !(0 <= fees[i] < 0x1_000_000)
       case _ => false
  }

  lemma {:induction false} PackFromFails(tokens: seq<Token>, fees: seq<int>, i: nat) returns (k: nat)
    requires i <= |tokens|
    ensures var r := PackFrom(tokens, fees, i);
      && i <= k && (r.Failure? ==> FailsAt(tokens, fees, k, r.error)) && (r.Success? ==> k == |tokens|)
      && forall j, error :: i <= j < k ==> !FailsAt(tokens, fees, j, error)
    decreases |tokens| - i
  {
    k := i;
    if i < |tokens| && LooksLikeAddress(tokens[i]) && FromHex(tokens[i][2..]).Some? && (i < |fees| ==> 0 <= fees[i] < 0x1_000_000) {
      k := PackFromFails(tokens, fees, i + 1);
    }
  }

  /** Exactly when packing fails, and for what: too few tokens, then a wrong number of fees, then the first thing wrong
      along the path. */
  lemma {:induction false} PackFails(tokens: seq<Token>, fees: seq<int>) returns (k: nat)
    ensures var r := Pack(tokens, fees);
      && (|tokens| < 2 ==> r == Failure(TooFewTokens))
      && (|tokens| >= 2 && |fees| != |tokens| - 1 ==> r == Failure(FeeCount))
      && (|tokens| >= 2 && |fees| == |tokens| - 1 ==>
            && (r.Failure? ==> FailsAt(tokens, fees, k, r.error)) && (r.Success? ==> k == |tokens|)
            && forall j, error :: 0 <= j < k ==> !FailsAt(tokens, fees, j, error))
  {
    k := PackFromFails(tokens, fees, 0);
  }

  /** No token hides a space, tab, line feed, vertical tab, form feed or carriage return behind its prefix. */
  ghost predicate HidesNone(tokens: seq<Token>) {
    forall k, i :: 0 <= k < |tokens| && 2 <= i < |tokens[k]| ==>
      var c := tokens[k][i] as int; c != 32 && c != 9 && c != 10 && c != 11 && c != 12 && c != 13
  }

  lemma {:induction false} BlanksExact(s: string)
    ensures Blanks(s) == 0 <==> forall i :: 0 <= i < |s| ==> !IsBlank(s[i])
  {
    if s != [] {
      BlanksExact(s[1..]);
      assert forall i :: 0 <= i < |s| - 1 ==> s[1..][i] == s[i + 1];
      assert forall i :: 0 < i < |s| ==> s[i] == s[1..][i - 1];
    }
  }

  lemma {:induction false} HidesNoneExact(tokens: seq<Token>)
    ensures NoBlanks(tokens, 0) <==> HidesNone(tokens)
  {
    forall k | 0 <= k < |tokens|
      ensures BlankFree(tokens[k]) <==> forall i :: 2 <= i < |tokens[k]| ==> !IsBlank(tokens[k][i])
    {
      if |tokens[k]| >= 2 {
        var rest := tokens[k][2..];
        BlanksExact(rest);
        assert forall i :: 0 <= i < |rest| ==> rest[i] == tokens[k][i + 2];
        assert forall i :: 2 <= i < |tokens[k]| ==> tokens[k][i] == rest[i - 2];
      }
    }
  }

  /** A packed path has its proper length exactly when no token hides a blank, and then, at any number of
      hops, parsing recovers the tokens (in lower case) and the fees. */
  lemma PackRoundTrip(tokens: seq<Token>, fees: seq<int>)
    requires Pack(tokens, fees).Success?
    ensures var b := Pack(tokens, fees).value;
      && (|b| == 20 + 23 * |fees| <==> HidesNone(tokens))
      && (HidesNone(tokens) ==>
            Parse(b).Some? && Parse(b).value.0 == LowerAll(tokens) && Parse(b).value.1 == fees)
  {
    HidesNoneExact(tokens);
    PackedLength(tokens, fees, 0);
    assert tokens[0..] == tokens && fees[0..] == fees;
    if NoBlanks(tokens, 0) {
      ParsePacked(tokens, fees, 0);
    }
  }

  /** A string of `n` zeros. */
  function Zeros(n: nat): string {
    if n == 0 then "" else "0" + Zeros(n - 1)
  }

  lemma {:induction false} ZerosDecode(n: nat)
    ensures |Zeros(2 * n)| == 2 * n && Blanks(Zeros(2 * n)) == 0
    ensures FromHex(Zeros(2 * n)).Some? && |FromHex(Zeros(2 * n)).value| == n
  {
    if n > 0 {
      ZerosDecode(n - 1);
      assert Zeros(2 * n)[1..] == Zeros(2 * n - 1) && Zeros(2 * n)[2..] == Zeros(2 * (n - 1));
    }
  }

  lemma {:induction false} ZerosAreDigits(n: nat)
    ensures |Zeros(n)| == n && forall i :: 0 <= i < n ==> Zeros(n)[i] == '0'
  {
    if n > 0 {
      ZerosAreDigits(n - 1);
    }
  }

  /** Two blanks and 38 zeros behind the prefix: 42 characters, no address, and packed into 19 bytes. */
  lemma BlankToken(t: Token)
    requires t == "0x  " + Zeros(38)
    ensures LooksLikeAddress(t) && !IsAddress(t) && !BlankFree(t)
    ensures FromHex(t[2..]).Some? && |FromHex(t[2..]).value| == 19
  {
    ZerosDecode(19);
    var digits := t[2..];
    assert digits[1..][1..] == Zeros(38) && digits[0] == ' ' && digits[1..][0] == ' ';
    assert t[2] == ' ';
  }

  /** So such a token is accepted, and the packed path is too short to be one. */
  lemma BlankTokenPacksShort(fee: nat)
    requires fee < 0x1_000_000
    ensures var t := "0x  " + Zeros(38);
            var packed := Pack([t, t], [fee]);
            packed.Success? && |packed.value| < 20 + 23 * 1
  {
    var t := "0x  " + Zeros(38);
    BlankToken(t);
    var tokens, fees := [t, t], [fee];
    assert PackFrom(tokens, fees, 2) == Success([]);
    assert PackFrom(tokens, fees, 1) == Success(FromHex(t[2..]).value + [] + []);
    assert PackFrom(tokens, fees, 0).Success?;
  }

  lemma {:induction false} HexDecodes(s: string)
    requires |s| % 2 == 0 && forall i :: 0 <= i < |s| ==> HexDigit(s[i]).Some?
    ensures FromHex(s).Some? && Blanks(s) == 0
    decreases |s|
  {
    if s != [] {
      HexDecodes(s[2..]);
      assert s[1..][1..] == s[2..];
    }
  }

  lemma {:induction false} AddressesPackFrom(tokens: seq<Token>, fees: seq<int>, i: nat)
    requires i <= |tokens|
    requires forall t :: t in tokens ==> IsAddress(t)
    requires forall f :: f in fees ==> 0 <= f < 0x1_000_000
    ensures PackFrom(tokens, fees, i).Success?
    decreases |tokens| - i
  {
    if i < |tokens| {
      assert tokens[i] in tokens && (i < |fees| ==> fees[i] in fees);
      HexDecodes(tokens[i][2..]);
      AddressesPackFrom(tokens, fees, i + 1);
    }
  }

  /** On real addresses and 24-bit fees packing never raises, and two paths with the same bytes are the
      same path. */
  lemma PackInjective(tokens: seq<Token>, fees: seq<int>, tokens': seq<Token>, fees': seq<int>)
    requires |tokens| >= 2 && |fees| == |tokens| - 1 && |tokens'| >= 2 && |fees'| == |tokens'| - 1
    requires forall t :: t in tokens + tokens' ==> IsAddress(t)
    requires forall f :: f in fees + fees' ==> 0 <= f < 0x1_000_000
    ensures Pack(tokens, fees).Success? && Pack(tokens', fees').Success?
    ensures Pack(tokens, fees) == Pack(tokens', fees') ==> LowerAll(tokens) == LowerAll(tokens') && fees == fees'
  {
    forall t | t in tokens || t in tokens' ensures IsAddress(t) && BlankFree(t) {
      assert t in tokens + tokens';
      HexDecodes(t[2..]);
    }
    forall f | f in fees || f in fees' ensures 0 <= f < 0x1_000_000 {
      assert f in fees + fees';
    }
    AddressesPackFrom(tokens, fees, 0);
    AddressesPackFrom(tokens', fees', 0);
    HidesNoneExact(tokens);
    HidesNoneExact(tokens');
    PackRoundTrip(tokens, fees);
    PackRoundTrip(tokens', fees');
  }
}
