/** Numbers as big-endian bytes: the 32-byte words that nonces are packed into and that
    the data of a settlement log is read from. */
module Words {
  import opened Options

  type Byte = b: nat | b < 256

  const WORD := 32

  function Pow256(k: nat): (r: nat)
    ensures r > 0
  {
    if k == 0 then 1 else 256 * Pow256(k - 1)
  }

  /** The k lowest bytes of n, most significant first. */
  function WordOf(n: nat, k: nat): (w: seq<Byte>)
    ensures |w| == k
  {
    if k == 0 then [] else WordOf(n / 256, k - 1) + [n % 256]
  }

  /** The number that big-endian bytes spell. */
  function ValueOf(w: seq<Byte>): nat {
    if w == [] then 0 else ValueOf(w[..|w| - 1]) * 256 + w[|w| - 1]
  }

  lemma {:induction false} ValueOfWord(n: nat, k: nat)
    requires n < Pow256(k)
    ensures ValueOf(WordOf(n, k)) == n
  {
    if k > 0 {
      ValueOfWord(n / 256, k - 1);
      assert WordOf(n, k)[..k - 1] == WordOf(n / 256, k - 1);
    }
  }

  lemma {:induction false} WordOfValue(w: seq<Byte>)
    ensures ValueOf(w) < Pow256(|w|) && WordOf(ValueOf(w), |w|) == w
  {
    if w != [] {
      var high := w[..|w| - 1];
      WordOfValue(high);
      assert ValueOf(w) / 256 == ValueOf(high) && ValueOf(w) % 256 == w[|w| - 1];
      assert w == high + [w[|w| - 1]];
    }
  }

  // ---------------------------------------------------------------- the library's encoding

  function BitLen(n: nat): nat {
    if n == 0 then 0 else 1 + BitLen(n / 2)
  }

  /** The bytes of n without leading zeros. */
  function MinimalBytes(n: nat): seq<Byte> {
    if n == 0 then [] else MinimalBytes(n / 256) + [n % 256]
  }

  function Zeros(k: nat): (w: seq<Byte>)
    ensures |w| == k
  {
    if k == 0 then [] else [0] + Zeros(k - 1)
  }

  /** Text at least as long as the target is left alone. */
  function LeftPad(w: seq<Byte>, k: nat): seq<Byte> {
    if |w| >= k then w else Zeros(k - |w|) + w
  }

  lemma {:induction false} WidthIsBitLength(n: nat, k: nat)
    ensures BitLen(n) <= 8 * k <==> n < Pow256(k)
  {
    if k > 0 {
      WidthIsBitLength(n / 256, k - 1);
      EightBits(n);
    }
  }

  lemma EightBits(n: nat)
    ensures BitLen(n) == if n < 256 then BitLen(n) else BitLen(n / 256) + 8
    ensures n < 256 ==> BitLen(n) <= 8
  {
    var a, b := n / 2, n / 4;
    var c, d := n / 8, n / 16;
    var e, f := n / 32, n / 64;
    var g, h := n / 128, n / 256;
    assert a / 2 == b && b / 2 == c && c / 2 == d && d / 2 == e && e / 2 == f && f / 2 == g && g / 2 == h;
    assert BitLen(a) <= BitLen(b) + 1 && BitLen(b) <= BitLen(c) + 1 && BitLen(c) <= BitLen(d) + 1;
    assert BitLen(d) <= BitLen(e) + 1 && BitLen(e) <= BitLen(f) + 1 && BitLen(f) <= BitLen(g) + 1;
    if n >= 256 {
      assert BitLen(g) == BitLen(h) + 1 && BitLen(f) == BitLen(g) + 1 && BitLen(e) == BitLen(f) + 1;
      assert BitLen(d) == BitLen(e) + 1 && BitLen(c) == BitLen(d) + 1;
    }
  }

  lemma {:induction false} ZeroWord(k: nat)
    ensures WordOf(0, k) == Zeros(k)
  {
    if k > 0 {
      ZeroWord(k - 1);
      ZerosEnd(k - 1);
    }
  }

  lemma {:induction false} ZerosEnd(k: nat)
    ensures Zeros(k) + [0] == Zeros(k + 1)
  {
    if k > 0 { ZerosEnd(k - 1); assert Zeros(k) + [0] == [0] + (Zeros(k - 1) + [0]); }
  }

  /** Padding the minimal bytes gives the fixed-width word. */
  lemma {:induction false} PaddedIsWord(n: nat, k: nat)
    requires n < Pow256(k)
    ensures |MinimalBytes(n)| <= k && LeftPad(MinimalBytes(n), k) == WordOf(n, k)
  {
    if n == 0 {
      ZeroWord(k);
      assert Zeros(k) + [] == Zeros(k);
    } else {
      PaddedIsWord(n / 256, k - 1);
      var high := MinimalBytes(n / 256);
      assert LeftPad(MinimalBytes(n), k) == LeftPad(high, k - 1) + [n % 256];
    }
  }

  // ---------------------------------------------------------------- lists of words

  /** A uint256. By WidthIsBitLength, n is below 256 to the 32nd. */
  predicate FitsWord(n: nat) { BitLen(n) <= 8 * WORD }

  predicate Fit(ns: seq<nat>) {
    forall i :: 0 <= i < |ns| ==> FitsWord(ns[i])
  }

  /** Words one after the other: the ABI encoding of static integer arguments, and the
      packed encoding of an array of them. */
  function Encode(ns: seq<nat>): (data: seq<Byte>)
    ensures |data| == WORD * |ns|
  {
    if ns == [] then [] else Encode(ns[..|ns| - 1]) + WordOf(ns[|ns| - 1], WORD)
  }

  function Decode(data: seq<Byte>): (ns: seq<nat>)
    ensures |ns| == |data| / WORD
  {
    if |data| < WORD then []
    else Decode(data[..|data| - WORD]) + [ValueOf(data[|data| - WORD..])]
  }

  lemma {:induction false} DecodeEncode(ns: seq<nat>)
    requires Fit(ns)
    ensures Decode(Encode(ns)) == ns
  {
    if ns != [] {
      var front, last := ns[..|ns| - 1], ns[|ns| - 1];
      assert ns == front + [last];
      assert FitsWord(ns[|ns| - 1]);
      DecodeEncode(front);
      DecodeEncodeLast(Encode(front), last);
    }
  }

  lemma DecodeEncodeLast(data: seq<Byte>, n: nat)
    requires FitsWord(n)
    ensures Decode(data + WordOf(n, WORD)) == Decode(data) + [n]
  {
    WidthIsBitLength(n, WORD);
    ValueOfWord(n, WORD);
    DecodeLast(data, WordOf(n, WORD));
  }

  lemma DecodeLast(data: seq<Byte>, w: seq<Byte>)
    requires |w| == WORD
    ensures Decode(data + w) == Decode(data) + [ValueOf(w)]
  {
    assert (data + w)[..|data|] == data && (data + w)[|data|..] == w;
  }

  lemma {:induction false} EncodeDecode(data: seq<Byte>)
    requires |data| % WORD == 0
    ensures Fit(Decode(data)) && Encode(Decode(data)) == data
    decreases |data|
  {
    if |data| >= WORD {
      var front, last := data[..|data| - WORD], data[|data| - WORD..];
      assert data == front + last;
      assert Decode(data) == Decode(front) + [ValueOf(last)];
      EncodeDecode(front);
      LastWord(Decode(front), last);
    } else {
      assert data == [];
    }
  }

  lemma LastWord(ns: seq<nat>, w: seq<Byte>)
    requires |w| == WORD
    ensures Encode(ns + [ValueOf(w)]) == Encode(ns) + w
    ensures Fit(ns) ==> Fit(ns + [ValueOf(w)])
  {
    WordOfValue(w);
    WidthIsBitLength(ValueOf(w), WORD);
    OneMoreWord(ns, ValueOf(w));
  }

  lemma OneMoreWord(ns: seq<nat>, n: nat)
    ensures Encode(ns + [n]) == Encode(ns) + WordOf(n, WORD)
    ensures Fit(ns) && FitsWord(n) ==> Fit(ns + [n])
  {
    assert (ns + [n])[..|ns|] == ns;
  }

  lemma {:induction false} EncodeInjective(a: seq<nat>, b: seq<nat>)
    requires Fit(a) && Fit(b)
    ensures Encode(a) == Encode(b) <==> a == b
  {
    DecodeEncode(a);
    DecodeEncode(b);
  }

  lemma {:induction false} EncodedWord(ns: seq<nat>, i: nat)
    requires i < |ns|
    ensures WORD * (i + 1) <= |Encode(ns)|
    ensures Encode(ns)[WORD * i..WORD * (i + 1)] == WordOf(ns[i], WORD)
    decreases |ns|
  {
    var front := ns[..|ns| - 1];
    if i < |front| {
      EncodedWord(front, i);
      assert Encode(ns)[WORD * i..WORD * (i + 1)] == Encode(front)[WORD * i..WORD * (i + 1)];
    }
  }

  // ---------------------------------------------------------------- packing nonces

  /** A nil big integer is None. */
  datatype Packing = NotNatural | TooWide | Packed(data: seq<Byte>)

  predicate Packable(n: Option<int>) {
    n.Some? && n.value >= 0 && FitsWord(n.value)
  }

  ghost predicate Denotes(nonces: seq<Option<int>>, ns: seq<nat>) {
    |nonces| == |ns| && forall i :: 0 <= i < |ns| ==> nonces[i] == Some(ns[i])
  }

  predicate FirstRefused(nonces: seq<Option<int>>, i: nat) {
    i < |nonces| && !Packable(nonces[i]) && forall j :: 0 <= j < i ==> Packable(nonces[j])
  }

  /** Fails on the first nonce that is missing, negative or too wide; otherwise the packed
      bytes are the words of the nonces, in order, and decode to them. */
  method PackNonces(nonces: seq<Option<int>>) returns (r: Packing)
    ensures r.Packed? <==> forall i :: 0 <= i < |nonces| ==> Packable(nonces[i])
    ensures r.Packed? ==> Denotes(nonces, Decode(r.data)) && |r.data| == WORD * |nonces|
    ensures !r.Packed? ==> exists i: nat :: FirstRefused(nonces, i) && (r.NotNatural? <==> nonces[i].None? || nonces[i].value < 0)
  {
    var packed: seq<Byte> := [];
    ghost var ns: seq<nat> := [];
    var i := 0;
    while i < |nonces|
      invariant 0 <= i <= |nonces| && Denotes(nonces[..i], ns)
      invariant forall j :: 0 <= j < i ==> Packable(nonces[j])
      invariant Fit(ns) && packed == Encode(ns)
    {
      var nonce := nonces[i];
      if nonce.None? || nonce.value < 0 {
        assert FirstRefused(nonces, i);
        return NotNatural;
      }
      if BitLen(nonce.value) > 256 {
        assert FirstRefused(nonces, i);
        return TooWide;
      }
      packed := PackOne(packed, ns, nonce.value);
      ns := ns + [nonce.value];
      i := i + 1;
    }
    assert nonces[..i] == nonces;
    DecodeEncode(ns);
    r := Packed(packed);
  }

  method PackOne(packed: seq<Byte>, ghost ns: seq<nat>, n: nat) returns (r: seq<Byte>)
    requires packed == Encode(ns) && FitsWord(n)
    ensures r == Encode(ns + [n]) && (Fit(ns) ==> Fit(ns + [n]))
  {
    WidthIsBitLength(n, WORD);
    PaddedIsWord(n, WORD);
    OneMoreWord(ns, n);
    r := packed + LeftPad(MinimalBytes(n), WORD);
  }

  // ---------------------------------------------------------------- log data

  function DecodeUint256(data: seq<Byte>): Option<nat> {
    if |data| < 32 then None else Some(ValueOf(data[..32]))
  }

  datatype Amounts = Amounts(gross: nat, recipient: nat, fee: nat)

  function DecodeThreeUint256Offset(data: seq<Byte>, offset: nat): Option<Amounts> {
    if |data| < offset + 96 then None
    else Some(Amounts(ValueOf(data[offset..offset + 32]), ValueOf(data[offset + 32..offset + 64]),
                      ValueOf(data[offset + 64..offset + 96])))
  }

  lemma DecodedWord(ns: seq<nat>, rest: seq<Byte>, i: nat)
    requires Fit(ns) && i < |ns|
    ensures WORD * (i + 1) <= |Encode(ns)|
    ensures ValueOf((Encode(ns) + rest)[WORD * i..WORD * (i + 1)]) == ns[i]
  {
    EncodedWord(ns, i);
    assert (Encode(ns) + rest)[WORD * i..WORD * (i + 1)] == Encode(ns)[WORD * i..WORD * (i + 1)];
    assert FitsWord(ns[i]);
    WidthIsBitLength(ns[i], WORD);
    ValueOfWord(ns[i], WORD);
  }

  /** What the contract logs beside the indexed topics of OrderExecuted. */
  datatype ExecutedData = ExecutedData(
    inputToken: nat, outputToken: nat, amountIn: nat, amounts: Amounts, recipient: nat)
  {
    function Arguments(): seq<nat> {
      [inputToken, outputToken, amountIn, amounts.gross, amounts.recipient, amounts.fee, recipient]
    }
  }

  /** The indexer reads the three amounts back out of the ABI encoding, whatever follows it. */
  lemma ExecutedAmountsRecovered(d: ExecutedData, rest: seq<Byte>)
    requires Fit(d.Arguments())
    ensures DecodeThreeUint256Offset(Encode(d.Arguments()) + rest, 96) == Some(d.amounts)
  {
    var ns := d.Arguments();
    DecodedWord(ns, rest, 3);
    DecodedWord(ns, rest, 4);
    DecodedWord(ns, rest, 5);
  }

  lemma NonceRecovered(nonce: nat, rest: seq<Byte>)
    requires FitsWord(nonce)
    ensures DecodeUint256(Encode([nonce]) + rest) == Some(nonce)
  {
    DecodedWord([nonce], rest, 0);
  }

  /** Any data long enough decodes to the words that stand there, and to no others; shorter
      data is refused. */
  lemma AmountsDecodeExactly(data: seq<Byte>, offset: nat, a: Amounts)
    requires Fit([a.gross, a.recipient, a.fee])
    ensures DecodeThreeUint256Offset(data, offset) == Some(a) <==>
      offset + 96 <= |data| && data[offset..offset + 96] == Encode([a.gross, a.recipient, a.fee])
  {
    if offset + 96 <= |data| {
      var part, ns := data[offset..offset + 96], [a.gross, a.recipient, a.fee];
      SliceOfSlice(data, offset, 96, 0, 32);
      SliceOfSlice(data, offset, 96, 32, 64);
      SliceOfSlice(data, offset, 96, 64, 96);
      if part == Encode(ns) {
        assert Encode(ns) + [] == Encode(ns);
        DecodedWord(ns, [], 0);
        DecodedWord(ns, [], 1);
        DecodedWord(ns, [], 2);
      }
      if DecodeThreeUint256Offset(data, offset) == Some(a) { ThreeWords(part, a); }
    }
  }

  lemma SliceOfSlice(data: seq<Byte>, offset: nat, n: nat, i: nat, j: nat)
    requires offset + n <= |data| && i <= j <= n
    ensures data[offset..offset + n][i..j] == data[offset + i..offset + j]
  {
    var part := data[offset..offset + n];
    assert forall k :: 0 <= k < |part| ==> part[k] == data[offset + k];
    assert |part[i..j]| == |data[offset + i..offset + j]|;
  }

  lemma ThreeWords(part: seq<Byte>, a: Amounts)
    requires |part| == 96
    requires a == Amounts(ValueOf(part[0..32]), ValueOf(part[32..64]), ValueOf(part[64..96]))
    ensures part == Encode([a.gross, a.recipient, a.fee])
  {
    EncodeDecode(part);
    var two, one := part[..64], part[..32];
    assert two[..32] == one && two[32..] == part[32..64] && part[64..] == part[64..96] && one == part[0..32];
    assert one[..0] == [] && one[0..] == one;
    assert Decode(one) == [a.gross];
    assert Decode(two) == [a.gross] + [a.recipient];
    assert Decode(part) == Decode(two) + [a.fee] == [a.gross, a.recipient, a.fee];
  }
}
