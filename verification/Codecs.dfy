/** What recovery asks of the serialiser can be met: a lawful codec exists. */
module Codecs {
  import opened Wrappers
  import opened WalFormat
  import opened Wal

  function Ones(n: nat): (b: seq<byte>)
    ensures |b| == n && forall i | 0 <= i < n :: b[i] == 1
  {
    seq(n, _ => 1)
  }

  /** A number, ended by a 2. */
  function Number(n: nat): seq<byte> {
    Ones(n) + [2]
  }

  function Characters(s: string): (b: seq<byte>) {
    if s == "" then [] else Number(s[0] as nat) + Characters(s[1..])
  }

  function Body(cp: Checkpoint): seq<byte> {
    Number(cp.turn) + (Number(cp.messages) + (Number(|cp.rest|) + Characters(cp.rest)))
  }

  /** The only 255 is the last byte. */
  function Encode(cp: Checkpoint): seq<byte> {
    Body(cp) + [255]
  }

  lemma NumberIsPrefixFree(m: nat, x: seq<byte>, n: nat, y: seq<byte>)
    requires Number(m) + x == Number(n) + y
    ensures m == n && x == y
  {
    var a, b := Number(m) + x, Number(n) + y;
    assert a[m] == 2 && b[n] == 2;
    assert forall i | 0 <= i < m :: a[i] == 1;
    assert forall i | 0 <= i < n :: b[i] == 1;
    assert x == a[m + 1..] && y == b[n + 1..];
  }

  lemma {:induction false} CharactersDiffer(s: string, t: string)
    requires |s| == |t| && Characters(s) == Characters(t)
    ensures s == t
  {
    if s != "" {
      NumberIsPrefixFree(s[0] as nat, Characters(s[1..]), t[0] as nat, Characters(t[1..]));
      CharactersDiffer(s[1..], t[1..]);
      assert s == [s[0]] + s[1..] && t == [t[0]] + t[1..];
    }
  }

  lemma EncodeIsInjective(a: Checkpoint, b: Checkpoint)
    requires Encode(a) == Encode(b)
    ensures a == b
  {
    assert Body(a) == Encode(a)[..|Encode(a)| - 1] && Body(b) == Encode(b)[..|Encode(b)| - 1];
    var ra, rb := Number(|a.rest|) + Characters(a.rest), Number(|b.rest|) + Characters(b.rest);
    NumberIsPrefixFree(a.turn, Number(a.messages) + ra, b.turn, Number(b.messages) + rb);
    NumberIsPrefixFree(a.messages, ra, b.messages, rb);
    NumberIsPrefixFree(|a.rest|, Characters(a.rest), |b.rest|, Characters(b.rest));
    CharactersDiffer(a.rest, b.rest);
  }

  lemma {:induction false} CharactersAreSmall(s: string)
    ensures forall i | 0 <= i < |Characters(s)| :: Characters(s)[i] < 255
  {
    if s != "" {
      CharactersAreSmall(s[1..]);
    }
  }

  lemma BodyIsSmall(cp: Checkpoint)
    ensures forall i | 0 <= i < |Body(cp)| :: Body(cp)[i] < 255
  {
    CharactersAreSmall(cp.rest);
  }

  ghost predicate IsEncoding(bytes: seq<byte>) {
    exists cp :: Encode(cp) == bytes
  }

  ghost function Decode(bytes: seq<byte>): Option<Checkpoint> {
    if IsEncoding(bytes) then var cp :| Encode(cp) == bytes; Some(cp) else None
  }

  lemma DecodeEncode(cp: Checkpoint)
    ensures Decode(Encode(cp)) == Some(cp)
  {
    EncodeIsInjective(Decode(Encode(cp)).value, cp);
  }

  lemma OtherEndingsAreNoEncodings(bytes: seq<byte>)
    requires bytes == [] || bytes[|bytes| - 1] != 255
    ensures Decode(bytes) == None
  {
    forall cp ensures Encode(cp) != bytes {
      assert Encode(cp)[|Encode(cp)| - 1] == 255;
    }
  }

  /** A cut encoding with zeros after it does not end as an encoding does. */
  lemma CutEndsOtherwise(cp: Checkpoint, k: nat, n: nat)
    requires k < |Encode(cp)|
    ensures var cut := Encode(cp)[..k] + Zeros(n); cut == [] || cut[|cut| - 1] != 255
  {
    BodyIsSmall(cp);
    assert Encode(cp)[..k] == Body(cp)[..k];
  }

  /** So the theorems about recovery are about something. */
  lemma LawfulCodecExists() returns (codec: Codec)
    ensures Lawful(codec)
  {
    codec := Codec(cp => Encode(cp), bytes => Decode(bytes));
    forall cp ensures codec.decode(codec.encode(cp)) == Some(cp) {
      DecodeEncode(cp);
    }
    forall n: nat ensures codec.decode(Zeros(n)) == None {
      OtherEndingsAreNoEncodings(Zeros(n));
    }
    forall cp, k: nat, n: nat | k < |codec.encode(cp)| ensures codec.decode(codec.encode(cp)[..k] + Zeros(n)) == None {
      CutEndsOtherwise(cp, k, n);
      OtherEndingsAreNoEncodings(Encode(cp)[..k] + Zeros(n));
    }
  }
}
