/**
 Calldata given as bytes or as items of one word each: its bytes, and its comparison with actual
 calldata or return data.
 */
module Calldata {
  import opened Common
  import opened Word256
  import opened CalldataText

  type byte = x: nat | x < 256

  datatype Calldata = Single(bytes: seq<byte>) | Compound(items: seq<string>)

  const WordBytes: nat := 32

  // ---------------------------------------------------------------- words as bytes

  // The `n` lowest bytes of a number, the most significant first.
  function BigEndian(v: nat, n: nat): (bytes: seq<byte>)
    ensures |bytes| == n
  {
    if n == 0 then [] else BigEndian(v / 256, n - 1) + [v % 256]
  }

  function FromBigEndian(bytes: seq<byte>): nat {
    if bytes == [] then 0 else FromBigEndian(bytes[..|bytes| - 1]) * 256 + bytes[|bytes| - 1]
  }

  lemma {:induction false} FromBigEndianBound(bytes: seq<byte>)
    ensures FromBigEndian(bytes) < Pow2(8 * |bytes|)
  {
    if bytes != [] {
      FromBigEndianBound(bytes[..|bytes| - 1]);
      Pow2Of8(8 * |bytes|);
    }
  }

  lemma Pow2Of8(n: nat)
    requires n >= 8
    ensures Pow2(n) == 256 * Pow2(n - 8)
  {
    Pow2Of4(n);
    Pow2Of4(n - 4);
  }

  lemma {:induction false} BigEndianRoundTrip(v: nat, n: nat)
    requires v < Pow2(8 * n)
    ensures FromBigEndian(BigEndian(v, n)) == v
  {
    if n > 0 {
      Pow2Of8(8 * n);
      BigEndianRoundTrip(v / 256, n - 1);
      assert BigEndian(v, n)[..n - 1] == BigEndian(v / 256, n - 1);
    }
  }

  lemma {:induction false} FromBigEndianRoundTrip(bytes: seq<byte>)
    ensures BigEndian(FromBigEndian(bytes), |bytes|) == bytes
  {
    if bytes != [] {
      var n := |bytes| - 1;
      FromBigEndianRoundTrip(bytes[..n]);
      assert bytes == bytes[..n] + [bytes[n]];
      DivisionIs(FromBigEndian(bytes), 256, FromBigEndian(bytes[..n]), bytes[n]);
    }
  }

  function WordToBytes(v: U256): (bytes: seq<byte>)
    ensures |bytes| == WordBytes
  {
    BigEndian(v, WordBytes)
  }

  function WordFromBytes(bytes: seq<byte>): U256
    requires |bytes| == WordBytes
  {
    FromBigEndianBound(bytes);
    Pow2OfWord(8 * |bytes|);
    FromBigEndian(bytes)
  }

  lemma WordRoundTrip(v: U256)
    ensures WordFromBytes(WordToBytes(v)) == v
  {
    Pow2OfWord(8 * WordBytes);
    BigEndianRoundTrip(v, WordBytes);
  }

  function PowerOf256(n: nat): (p: nat)
    ensures p > 0
  {
    if n == 0 then 1 else 256 * PowerOf256(n - 1)
  }

  lemma DivideTwice(v: nat, d: nat)
    requires d > 0
    ensures v / 256 / d == v / (256 * d)
  {
    var q := v / 256 / d;
    EuclideanDivision(v / 256, d);
    EuclideanDivision(v, 256);
    var r := 256 * (v / 256 % d) + v % 256;
    assert 256 * (d * q) == q * (256 * d);
    assert v == q * (256 * d) + r;
    DivisionIs(v, 256 * d, q, r);
  }

  lemma {:induction false} BigEndianDigit(v: nat, n: nat, j: nat)
    requires j < n
    ensures BigEndian(v, n)[n - 1 - j] == v / PowerOf256(j) % 256
    decreases j
  {
    if j > 0 {
      BigEndianDigit(v / 256, n - 1, j - 1);
      DivideTwice(v, PowerOf256(j - 1));
    }
  }

  /** Byte `31 - j` of a word is its `j`-th digit to the base of 256. */
  lemma WordByte(v: U256, j: nat)
    requires j < 32
    ensures WordToBytes(v)[31 - j] == v / PowerOf256(j) % 256
  {
    BigEndianDigit(v, WordBytes, j);
  }

  // ---------------------------------------------------------------- the bytes of calldata

  /** What each item's names stand for when it is resolved, by the item's index. */
  type Contexts = nat -> Context

  function Encode(items: seq<string>, contexts: Contexts): Option<seq<byte>> {
    if items == [] then Some([])
    else
      var n := |items| - 1;
      var init := Encode(items[..n], contexts);
      var last := ResolveText(items[n], contexts(n));
      if init.None? || last.None? then None else Some(init.value + WordToBytes(last.value))
  }

  function Bytes(calldata: Calldata, contexts: Contexts): Option<seq<byte>> {
    match calldata
    case Single(bytes) => Some(bytes)
    case Compound(items) => Encode(items, contexts)
  }

  function SizeRequirement(calldata: Calldata): nat {
    match calldata
    case Single(bytes) => |bytes|
    case Compound(items) => |items| * 32
  }

  function Word(bytes: seq<byte>, k: nat): seq<byte>
    requires 32 * k + 32 <= |bytes|
  {
    bytes[32 * k..32 * k + 32]
  }

  ghost predicate IsWords(items: seq<string>, contexts: Contexts, bytes: seq<byte>) {
    && |bytes| == 32 * |items|
    && forall k: nat | k < |items| :: ResolveText(items[k], contexts(k)) == Some(WordFromBytes(Word(bytes, k)))
  }

  lemma IsWordsSnoc(items: seq<string>, contexts: Contexts, bytes: seq<byte>, item: string, v: U256)
    requires IsWords(items, contexts, bytes)
    requires ResolveText(item, contexts(|items|)) == Some(v)
    ensures IsWords(items + [item], contexts, bytes + WordToBytes(v))
  {
    var longer := bytes + WordToBytes(v);
    WordRoundTrip(v);
    assert Word(longer, |items|) == WordToBytes(v);
    forall k: nat | k < |items|
      ensures Word(longer, k) == Word(bytes, k) && (items + [item])[k] == items[k]
    {
    }
  }

  /** Calldata resolves when all its items do. */
  lemma {:induction false} EncodeFails(items: seq<string>, contexts: Contexts)
    ensures Encode(items, contexts).Some?
      <==> forall k: nat | k < |items| :: ResolveText(items[k], contexts(k)).Some?
    decreases |items|
  {
    if items != [] {
      var init := items[..|items| - 1];
      EncodeFails(init, contexts);
      assert forall k: nat | k < |init| :: init[k] == items[k];
    }
  }

  /** Calldata that resolves fills the space reserved for it, one word for each item. */
  lemma {:induction false} EncodeIsWords(items: seq<string>, contexts: Contexts)
    requires Encode(items, contexts).Some?
    ensures |Encode(items, contexts).value| == SizeRequirement(Compound(items))
    ensures IsWords(items, contexts, Encode(items, contexts).value)
    decreases |items|
  {
    if items != [] {
      var n := |items| - 1;
      EncodeIsWords(items[..n], contexts);
      assert items == items[..n] + [items[n]];
      IsWordsSnoc(items[..n], contexts, Encode(items[..n], contexts).value, items[n], ResolveText(items[n], contexts(n)).value);
    }
  }

  /** Appends the calldata to `buffer`; stops at the first item that does not resolve, leaving the
      words of those before it. */
  method CalldataIntoSlice(calldata: Calldata, buffer: seq<byte>, contexts: Contexts)
    returns (ok: bool, filled: seq<byte>)
    ensures ok <==> Bytes(calldata, contexts).Some?
    ensures ok ==> filled == buffer + Bytes(calldata, contexts).value
    ensures !ok ==> exists n: nat ::
      && n < |calldata.items|
      && ResolveText(calldata.items[n], contexts(n)).None?
      && Encode(calldata.items[..n], contexts).Some?
      && filled == buffer + Encode(calldata.items[..n], contexts).value
  {
    filled := buffer;
    match calldata {
      case Single(bytes) =>
        filled := filled + bytes;
      case Compound(items) =>
        var i := 0;
        while i < |items|
          invariant i <= |items|
          invariant Encode(items[..i], contexts).Some?
          invariant filled == buffer + Encode(items[..i], contexts).value
        {
          var resolved := ResolveText(items[i], contexts(i));
          if resolved.None? {
            EncodeFails(items, contexts);
            return false, filled;
          }
          assert items[..i + 1][..i] == items[..i];
          filled := filled + WordToBytes(resolved.value);
          i := i + 1;
        }
        assert items[..i] == items;
    }
    ok := true;
  }

  // ---------------------------------------------------------------- comparison with actual data

  // The number of 32-byte chunks of `data`, the last possibly short.
  function ChunkCount(data: seq<byte>): nat {
    (|data| + 31) / 32
  }

  // Chunk `k` as a word, a short one filled up with zeros on the right.
  function Chunk(data: seq<byte>, k: nat): (chunk: seq<byte>)
    requires k < ChunkCount(data)
    ensures |chunk| == 32
  {
    if 32 * k + 32 <= |data| then Word(data, k)
    else data[32 * k..] + seq(32 * k + 32 - |data|, _ => 0)
  }

  /** Every item that has a chunk to stand against, and is no wildcard, resolves to that chunk. */
  predicate Matches(items: seq<string>, data: seq<byte>, contexts: Contexts) {
    forall k: nat | k < |items| && k < ChunkCount(data) ::
      ItemMatches(items[k], Chunk(data, k), contexts(k))
  }

  predicate ItemMatches(item: string, chunk: seq<byte>, context: Context)
    requires |chunk| == 32
  {
    item == "*" || ResolveText(item, context) == Some(WordFromBytes(chunk))
  }

  /** A difference between items and data is an error, never a plain no. */
  method IsEquivalent(calldata: Calldata, other: seq<byte>, contexts: Contexts) returns (r: Result<bool>)
    ensures calldata.Single? ==> r == Ok(calldata.bytes == other)
    ensures calldata.Compound? ==> r == if Matches(calldata.items, other, contexts) then Ok(true) else Err
  {
    match calldata {
      case Single(bytes) =>
        r := Ok(bytes == other);
      case Compound(items) =>
        var equal := CompareItems(items, other, contexts);
        r := if equal then Ok(true) else Err;
    }
  }

  method CompareItems(items: seq<string>, other: seq<byte>, contexts: Contexts) returns (equal: bool)
    ensures equal == Matches(items, other, contexts)
  {
    var k := 0;
    while k < |items| && k < ChunkCount(other)
      invariant k <= |items| && k <= ChunkCount(other)
      invariant forall j: nat | j < k :: ItemMatches(items[j], Chunk(other, j), contexts(j))
    {
      var matches := CompareItem(items[k], Chunk(other, k), contexts(k));
      if !matches {
        assert !ItemMatches(items[k], Chunk(other, k), contexts(k));
        return false;
      }
      k := k + 1;
    }
    equal := true;
  }

  method CompareItem(item: string, chunk: seq<byte>, context: Context) returns (equal: bool)
    requires |chunk| == 32
    ensures equal == ItemMatches(item, chunk, context)
  {
    if item == "*" {
      return true;
    }
    var expected := ResolveText(item, context);
    equal := expected.Some? && expected.value == WordFromBytes(chunk);
  }

  /** Calldata is equivalent to its own bytes; with no wildcard and as many words as items, to no
      others. */
  lemma EquivalentToOwnBytes(items: seq<string>, data: seq<byte>, contexts: Contexts)
    ensures Encode(items, contexts) == Some(data)
      <==> Matches(items, data, contexts) && |data| == 32 * |items| && "*" !in items
  {
    if Encode(items, contexts) == Some(data) {
      EncodeIsWords(items, contexts);
      forall k: nat | k < |items|
        ensures items[k] != "*"
        ensures ItemMatches(items[k], Chunk(data, k), contexts(k))
      {
        WildcardHasNoBytes(contexts(k));
      }
    }
    if Matches(items, data, contexts) && |data| == 32 * |items| && "*" !in items {
      forall k: nat | k < |items|
        ensures ResolveText(items[k], contexts(k)) == Some(WordFromBytes(Word(data, k)))
      {
        assert Chunk(data, k) == Word(data, k);
        assert ItemMatches(items[k], Chunk(data, k), contexts(k));
      }
      EncodeFails(items, contexts);
      EncodeIsWords(items, contexts);
      SameWords(data, Encode(items, contexts).value, |items|);
    }
  }

  lemma SameWords(a: seq<byte>, b: seq<byte>, n: nat)
    requires |a| == |b| == 32 * n
    requires forall k: nat | k < n :: WordFromBytes(Word(a, k)) == WordFromBytes(Word(b, k))
    ensures a == b
  {
    forall i: nat | i < |a|
      ensures a[i] == b[i]
    {
      var k := i / 32;
      FromBigEndianRoundTrip(Word(a, k));
      FromBigEndianRoundTrip(Word(b, k));
      assert a[i] == Word(a, k)[i - 32 * k] && b[i] == Word(b, k)[i - 32 * k];
    }
  }

  /** A lone `*` is a multiplication, so a wildcard stands for nothing that could be sent. */
  lemma WildcardHasNoBytes(context: Context)
    ensures ResolveText("*", context) == None
  {
    SplitWord("*", "");
    assert "*" + "" == "*";
    assert Split("*") == ["*"];
    var tokens := Tokens("*");
    assert tokens == [TokenOf("*")];
  }

  /** The comparison stops at the shorter side: words behind the last item are accepted unseen. */
  lemma ExtraDataIsAccepted(items: seq<string>, data: seq<byte>, extra: seq<byte>, contexts: Contexts)
    requires |data| == 32 * |items|
    ensures Matches(items, data + extra, contexts) <==> Matches(items, data, contexts)
  {
    forall k: nat | k < |items|
      ensures k < ChunkCount(data) && k < ChunkCount(data + extra)
      ensures Chunk(data + extra, k) == Chunk(data, k)
    {
    }
  }

  /** Nothing is checked of the items that no data stands against. */
  lemma MissingDataIsAccepted(items: seq<string>, more: seq<string>, data: seq<byte>, contexts: Contexts)
    requires ChunkCount(data) <= |items|
    ensures Matches(items + more, data, contexts) <==> Matches(items, data, contexts)
  {
    assert forall k: nat | k < ChunkCount(data) :: (items + more)[k] == items[k];
  }
}
