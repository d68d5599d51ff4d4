/** packages/domainobjs/ts/commands/VoteCommand.ts: five fields packed into one number, and exactly when they come back. */
module VoteCommandCodec {
  import opened DomainObjects
  import opened Field
  import opened Powers
  import opened Results
  import opened Voting

  /** The five packed fields, as the bigints they are before the constructor looks at them. */
  datatype Fields = Fields(stateIndex: int, voteOptionIndex: int, newVoteWeight: int, nonce: int, pollId: int)

  /** 2 ** 50 and the four shifts, as powers of two in hexadecimal. */
  const LIMIT_50_BITS: nat := 0x4_0000_0000_0000
  const SHIFT_100: nat := 0x10_0000_0000_0000_0000_0000_0000
  const SHIFT_150: nat := 0x40_0000_0000_0000_0000_0000_0000_0000_0000_0000
  const SHIFT_200: nat := 0x100_0000_0000_0000_0000_0000_0000_0000_0000_0000_0000_0000_0000
  const LIMIT_250_BITS: nat := 0x400_0000_0000_0000_0000_0000_0000_0000_0000_0000_0000_0000_0000_0000_0000_0000

  lemma ShiftsArePowers()
    ensures LIMIT_50_BITS == Pow(2, 50) && SHIFT_100 == Pow(2, 100) && SHIFT_150 == Pow(2, 150) && SHIFT_200 == Pow(2, 200)
    ensures LIMIT_250_BITS == Pow(2, 250)
  {
    hide Pow;
    TwoTo50();
    PowAdd(2, 50, 50);
    PowAdd(2, 100, 50);
    PowAdd(2, 150, 50);
    PowAdd(2, 200, 50);
    assert 50 + 50 == 100 && 100 + 50 == 150 && 150 + 50 == 200 && 200 + 50 == 250;
  }

  lemma TwoTo50()
    ensures Pow(2, 50) == LIMIT_50_BITS
  {
    assert Pow(2, 5) == 32;
    PowAdd(2, 5, 5);
    PowAdd(2, 10, 5);
    PowAdd(2, 10, 15);
    PowAdd(2, 25, 25);
  }

  /** The constructor's assertions: the limit itself still passes, and nothing bounds a field from below. */
  predicate Constructible(f: Fields) {
    && LIMIT_50_BITS >= f.stateIndex && LIMIT_50_BITS >= f.voteOptionIndex && LIMIT_50_BITS >= f.newVoteWeight
    && LIMIT_50_BITS >= f.nonce && LIMIT_50_BITS >= f.pollId
  }

  /** asArray's packed parameter. */
  function Pack(f: Fields): int {
    f.stateIndex + f.voteOptionIndex * LIMIT_50_BITS + f.newVoteWeight * SHIFT_100 + f.nonce * SHIFT_150 + f.pollId * SHIFT_200
  }

  /** The 50 bits above a shift; on a negative bigint the mask works on the two's complement, as floor division does. */
  function Extract(val: int, shift: nat): (group: nat)
    requires shift >= 1
    ensures group < LIMIT_50_BITS
  {
    val / shift % LIMIT_50_BITS
  }

  function Unpack(data: int): Fields {
    Fields(Extract(data, 1), Extract(data, LIMIT_50_BITS), Extract(data, SHIFT_100), Extract(data, SHIFT_150), Extract(data, SHIFT_200))
  }

  predicate Fits50(x: int) { 0 <= x < LIMIT_50_BITS }

  predicate Packable(f: Fields) {
    Fits50(f.stateIndex) && Fits50(f.voteOptionIndex) && Fits50(f.newVoteWeight) && Fits50(f.nonce) && Fits50(f.pollId)
  }

  // ----- the codec

  lemma LowDigit(b: nat, d: int, rest: int)
    requires 0 <= d < b
    ensures (d + b * rest) % b == d && (d + b * rest) / b == rest
  {
    var x := d + b * rest;
    var q := x / b;
    assert b * q + x % b == x;
    if q < rest {
      Spread(b, q + 1, rest);
    } else if q > rest {
      Spread(b, rest + 1, q);
    }
  }

  lemma Spread(b: nat, x: int, y: int)
    requires x <= y
    ensures b * x <= b * y
  {
    assert b * y == b * x + b * (y - x);
  }

  lemma DivDiv(x: int, a: nat, b: nat)
    requires a >= 1 && b >= 1
    ensures a * b >= 1 && x / a / b == x / (a * b)
  {
    MulAtLeast(a, b);
    var q, r := x / a / b, x / a % b;
    var s := x % a;
    assert x == a * (b * q + r) + s;
    assert a * (b * q + r) == (a * b) * q + a * r by {
      MulAssoc(a, b, q);
    }
    Spread(a, r + 1, b);
    assert a * (r + 1) == a * r + a;
    Spread(a, 0, r);
    assert x == (a * r + s) + (a * b) * q;
    LowDigit(a * b, a * r + s, q);
  }

  /** A group is what is left above the lower groups, cut to 50 bits. */
  lemma ExtractGroup(shift: nat, low: int, group: int, high: int)
    requires 0 <= low < shift && Fits50(group)
    ensures Extract(low + shift * (group + LIMIT_50_BITS * high), shift) == group
  {
    LowDigit(shift, low, group + LIMIT_50_BITS * high);
    LowDigit(LIMIT_50_BITS, group, high);
  }

  /** The number with these digits, the lowest first. */
  function NumberOf(digits: seq<int>, base: int): int {
    if digits == [] then 0 else digits[0] + base * NumberOf(digits[1..], base)
  }

  /** Packed, the fields are the digits to base 2^50: from the lowest up state index, option, weight, nonce and poll. */
  lemma PackedDigits(f: Fields)
    ensures Pack(f) == NumberOf([f.stateIndex, f.voteOptionIndex, f.newVoteWeight, f.nonce, f.pollId], Pow(2, 50))
  {
    hide Pow, NumberOf;
    ShiftsArePowers();
    var b := LIMIT_50_BITS;
    var none: seq<int> := [];
    var p := [f.pollId] + none;
    var np := [f.nonce] + p;
    var wnp := [f.newVoteWeight] + np;
    var ownp := [f.voteOptionIndex] + wnp;
    NextDigit(f.pollId, none, b);
    NextDigit(f.nonce, p, b);
    NextDigit(f.newVoteWeight, np, b);
    NextDigit(f.voteOptionIndex, wnp, b);
    NextDigit(f.stateIndex, ownp, b);
    assert [f.stateIndex] + ownp == [f.stateIndex, f.voteOptionIndex, f.newVoteWeight, f.nonce, f.pollId];
  }

  lemma NextDigit(digit: int, rest: seq<int>, base: int)
    ensures NumberOf([digit] + rest, base) == digit + base * NumberOf(rest, base) && NumberOf([], base) == 0
  {
    assert ([digit] + rest)[1..] == rest;
  }

  /** Unpacking undoes packing exactly for fields of 50 bits. */
  lemma RoundTripIff(f: Fields)
    ensures Unpack(Pack(f)) == f <==> Packable(f)
  {
    hide Extract;
    if Packable(f) {
      var Fields(s, o, w, n, p) := f;
      ExtractGroup(1, 0, s, o + w * LIMIT_50_BITS + n * SHIFT_100 + p * SHIFT_150);
      ExtractGroup(LIMIT_50_BITS, s, o, w + n * LIMIT_50_BITS + p * SHIFT_100);
      ExtractGroup(SHIFT_100, s + o * LIMIT_50_BITS, w, n + p * LIMIT_50_BITS);
      ExtractGroup(SHIFT_150, s + o * LIMIT_50_BITS + w * SHIFT_100, n, p);
      ExtractGroup(SHIFT_200, s + o * LIMIT_50_BITS + w * SHIFT_100 + n * SHIFT_150, p, 0);
    }
  }

  /** Packing undoes unpacking exactly for numbers of 250 bits; a longer number loses the rest. */
  lemma PackUnpackIff(data: int)
    ensures Pack(Unpack(data)) == data <==> 0 <= data < LIMIT_250_BITS
  {
    hide Extract;
    NextGroup(data, 1, LIMIT_50_BITS);
    NextGroup(data, LIMIT_50_BITS, SHIFT_100);
    NextGroup(data, SHIFT_100, SHIFT_150);
    NextGroup(data, SHIFT_150, SHIFT_200);
    NextGroup(data, SHIFT_200, LIMIT_250_BITS);
    assert Pack(Unpack(data)) == data - LIMIT_250_BITS * (data / LIMIT_250_BITS);
  }

  lemma NextGroup(v: int, shift: nat, next: nat)
    requires shift >= 1 && next == shift * LIMIT_50_BITS
    ensures next >= 1 && v / 1 == v && v / shift == LIMIT_50_BITS * (v / next) + Extract(v, shift)
  {
    DivDiv(v, shift, LIMIT_50_BITS);
  }

  /** The limit itself passes the constructor but carries into the next field: two different commands pack alike. */
  lemma LimitCollides()
    ensures var f, g := Fields(LIMIT_50_BITS, 0, 3, 1, 0), Fields(0, 1, 3, 1, 0);
            Constructible(f) && Constructible(g) && f != g && Pack(f) == Pack(g) && Unpack(Pack(f)) == g
  {
    RoundTripIff(Fields(0, 1, 3, 1, 0));
  }

  /** What the constructor takes, if not negative, packs into one field element. */
  lemma PackedFitsField(f: Fields)
    requires Constructible(f)
    requires f.stateIndex >= 0 && f.voteOptionIndex >= 0 && f.newVoteWeight >= 0 && f.nonce >= 0 && f.pollId >= 0
    ensures 0 <= Pack(f) < SNARK_FIELD_SIZE
  {
  }

  // ----- whole messages

  /** The Poseidon cipher for one shared key, uninterpreted. */
  datatype Cipher = Cipher(encrypt: seq<int> -> seq<int>, decrypt: seq<int> -> Option<seq<int>>)

  function FieldsOf(c: VoteCommand): Fields {
    Fields(c.stateIndex, c.voteOptionIndex, c.newVoteWeight, c.nonce, c.pollId)
  }

  function AsArray(c: VoteCommand): (a: seq<int>)
    ensures |a| == 4
  {
    [Pack(FieldsOf(c)), c.newPublicKey.x, c.newPublicKey.y, c.salt]
  }

  function Encrypt(c: VoteCommand, signature: Signature, cipher: Cipher): Message {
    Message(cipher.encrypt(AsArray(c) + [signature.r8.0, signature.r8.1, signature.s]))
  }

  /** Without force: nothing if the cipher rejects the message. */
  function Decrypt(message: Message, cipher: Cipher): Option<(VoteCommand, Signature)> {
    match cipher.decrypt(message.data)
    case None => None
    case Some(decrypted) =>
      if |decrypted| != 7 then None
      else
        var data := decrypted[0];
        Some((VoteCommand(Extract(data, 1), PublicKey(decrypted[1], decrypted[2]), Extract(data, LIMIT_50_BITS),
                          Extract(data, SHIFT_100), Extract(data, SHIFT_150), Extract(data, SHIFT_200), decrypted[3]),
              Signature((decrypted[4], decrypted[5]), decrypted[6])))
  }

  /** With a cipher that decrypts what it encrypted, a message gives back its command exactly when the fields have 50 bits. */
  lemma DecryptEncryptIff(c: VoteCommand, signature: Signature, cipher: Cipher)
    requires forall plain :: |plain| == 7 ==> cipher.decrypt(cipher.encrypt(plain)) == Some(plain)
    ensures Decrypt(Encrypt(c, signature, cipher), cipher) == Some((c, signature)) <==> Packable(FieldsOf(c))
  {
    hide Pack, Extract;
    var plain := AsArray(c) + [signature.r8.0, signature.r8.1, signature.s];
    assert cipher.decrypt(cipher.encrypt(plain)) == Some(plain);
    RoundTripIff(FieldsOf(c));
  }

  /** Whatever a message decrypts to, the constructor takes it, and packing it again gives the low 250 bits. */
  lemma DecryptedIsConstructible(message: Message, cipher: Cipher)
    requires Decrypt(message, cipher).Some?
    ensures Packable(FieldsOf(Decrypt(message, cipher).value.0)) && Constructible(FieldsOf(Decrypt(message, cipher).value.0))
    ensures FieldsOf(Decrypt(message, cipher).value.0) == Unpack(cipher.decrypt(message.data).value[0])
  {
  }
}
