/** V3 candidate paths and the quoter calls built for them (routing/v3_batched.py). */
module V3Batched {
  import opened Wrappers
  import opened Models
  import opened Multicall
  import V3Path
  import BatchedQuoter

  const MAX_CALLS_PER_BATCH: nat := 8

  /** One candidate: a single hop, or two through `intermediate`. `amountIn` is the exact input of a sell
      and the exact OUTPUT of a buy (`exactOutput`). */
  datatype Path = Path(
    orderUid: Uid,
    tokenIn: Token,
    tokenOut: Token,
    amountIn: nat,
    feeTierIn: nat,
    intermediate: Option<Token>,
    feeTierOut: Option<nat>,
    exactOutput: bool
  )

  datatype QuoterCall =
    | QuoteSingle(exactOutput: bool, tokenIn: Token, tokenOut: Token, amount: nat, fee: nat)
    | QuotePath(exactOutput: bool, path: Bytes, amount: nat)

  /** `_strip_0x` then `rjust(40, "0")`. */
  function PadAddress(token: Token): string {
    var digits := if |token| >= 2 && (token[..2] == "0x" || token[..2] == "0X") then token[2..] else token;
    if |digits| < 40 then seq(40 - |digits|, _ => '0') + digits else digits
  }

  /** `_encode_path_bytes`, None where it raises. */
  function EncodePathBytes(tokenIn: Token, feeIn: nat, intermediate: Option<Token>, feeOut: Option<nat>,
                           tokenOut: Token): Option<Bytes> {
    var first := V3Path.FromHex(PadAddress(tokenIn));
    var last := V3Path.FromHex(PadAddress(tokenOut));
    if first.None? || last.None? || feeIn >= 0x1_000_000 then None
    else if intermediate.None? then Some(first.value + V3Path.FeeBytes(feeIn) + last.value)
    else if feeOut.None? || feeOut.value >= 0x1_000_000 then None
    else
      var mid := V3Path.FromHex(PadAddress(intermediate.value));
      if mid.None? then None
      else Some(first.value + V3Path.FeeBytes(feeIn) + mid.value + V3Path.FeeBytes(feeOut.value) + last.value)
  }

  /** `_build_call`, None where it raises: the order uid plays no part in it, and a two-hop buy reverses the
      path. */
  function BuildCall(p: Path): Option<QuoterCall> {
    if p.intermediate.None? then
      if V3Path.HexAddress(p.tokenIn) && V3Path.HexAddress(p.tokenOut) && p.feeTierIn < 0x1_000_000
      then Some(QuoteSingle(p.exactOutput, p.tokenIn, p.tokenOut, p.amountIn, p.feeTierIn))
      else None
    else if p.feeTierOut.None? then None
    else
      var path :=
        if p.exactOutput
        then EncodePathBytes(p.tokenOut, p.feeTierOut.value, p.intermediate, Some(p.feeTierIn), p.tokenIn)
        else EncodePathBytes(p.tokenIn, p.feeTierIn, p.intermediate, p.feeTierOut, p.tokenOut);
      if path.None? then None else Some(QuotePath(p.exactOutput, path.value, p.amountIn))
  }

  /** The on-chain quoter: a node and the two ABI decoders, 0 where a decoder gives up. */
  datatype Chain = Chain(node: Node<QuoterCall>, decodeSingle: Bytes -> nat, decodeMulti: Bytes -> nat)

  function Decode(chain: Chain, p: Path, data: Bytes): nat {
    if p.intermediate.None? then chain.decodeSingle(data) else chain.decodeMulti(data)
  }

  function QuoterOf(chain: Chain): BatchedQuoter.Quoter<Path, QuoterCall> {
    BatchedQuoter.Quoter(BuildCall, (p, data) => Decode(chain, p, data), chain.node)
  }

  /** The amount the chain quotes for a path asked alone, 0 where no call can be built. */
  function PathQuote(chain: Chain, p: Path): nat {
    if BuildCall(p).None? then 0 else BatchedQuoter.QuoteOne(QuoterOf(chain), p)
  }

  /** A quote does not depend on whose order asked for it. */
  lemma QuoteIgnoresUid(chain: Chain, p: Path, uid: Uid)
    ensures BuildCall(p.(orderUid := uid)) == BuildCall(p)
    ensures PathQuote(chain, p.(orderUid := uid)) == PathQuote(chain, p)
  {
  }

  /** A short token is filled up with zeros in front, and one of 40 digits or more only loses its prefix. */
  lemma PadExact(digits: string, prefix: string)
    requires prefix == "0x" || prefix == "0X" || (prefix == "" && (|digits| >= 2 ==> digits[..2] != "0x" && digits[..2] != "0X"))
    ensures var padded := PadAddress(prefix + digits);
      && |padded| == (if |digits| < 40 then 40 else |digits|)
      && padded[|padded| - |digits|..] == digits
      && forall i :: 0 <= i < |padded| - |digits| ==> padded[i] == '0'
  {
    var token := prefix + digits;
    if prefix == "" {
      assert token == digits;
    } else {
      assert token[..2] == prefix && token[2..] == digits;
    }
  }

  lemma PadKeepsAddress(t: Token)
    requires V3Path.LooksLikeAddress(t)
    ensures PadAddress(t) == t[2..]
  {
  }

  /** Both encoders put a two-hop path into the same bytes, and fail together. */
  lemma EncodersAgree(tokenIn: Token, feeIn: nat, mid: Token, feeOut: nat, tokenOut: Token)
    requires V3Path.LooksLikeAddress(tokenIn) && V3Path.LooksLikeAddress(mid) && V3Path.LooksLikeAddress(tokenOut)
    ensures var quoted := EncodePathBytes(tokenIn, feeIn, Some(mid), Some(feeOut), tokenOut);
            var packed := V3Path.Pack([tokenIn, mid, tokenOut], [feeIn, feeOut]);
            quoted == if packed.Success? then Some(packed.value) else None
  {
    PadKeepsAddress(tokenIn);
    PadKeepsAddress(mid);
    PadKeepsAddress(tokenOut);
    var tokens, fees := [tokenIn, mid, tokenOut], [feeIn, feeOut];
    var p2 := V3Path.PackFrom(tokens, fees, 2);
    var p1 := V3Path.PackFrom(tokens, fees, 1);
    assert V3Path.PackFrom(tokens, fees, 3) == Success([]);
    if p2.Success? {
      assert p2.value == V3Path.FromHex(tokenOut[2..]).value;
    }
    if p1.Success? {
      assert p1.value == V3Path.FromHex(mid[2..]).value + V3Path.FeeBytes(feeOut) + p2.value;
      var first := V3Path.FromHex(tokenIn[2..]);
      if first.Some? && feeIn < 0x1_000_000 {
        var (a, b, c, d, e) := (first.value, V3Path.FeeBytes(feeIn), V3Path.FromHex(mid[2..]).value, V3Path.FeeBytes(feeOut), p2.value);
        assert a + b + (c + d + e) == a + b + c + d + e;
      }
    }
  }
}
