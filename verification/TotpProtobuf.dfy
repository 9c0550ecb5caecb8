/**
 The protobuf reader of the authenticator export: base-128 varints and length-delimited fields, checked
 against the canonical encoder of the protobuf encoding specification.
 */
module TotpProtobuf {

  type Byte = b: nat | b < 256 witness 0

  const MAX_SAFE_INTEGER: nat := 9_007_199_254_740_991
  const TWO_32: nat := 0x1_0000_0000
  const MAX_FIELD_NUMBER: nat := 0x1FFF_FFFF

  datatype ProtoError = EndOfVarint | VarintTooBig | BadFieldNumber | BadLength | UnsupportedWireType(wireType: nat)

  datatype Result<+T> = Ok(value: T) | Error(error: ProtoError)

  datatype Field = Number(number: nat, value: nat) | Bytes(number: nat, data: seq<Byte>)

  // ---- Varints ----

  /** The value at the front and the bytes it takes. */
  datatype Varint = Varint(value: nat, size: nat)

  function TakeRaw(b: seq<Byte>): (r: Result<Varint>)
    ensures r.Ok? ==> 1 <= r.value.size <= |b|
  {
    if b == [] then Error(EndOfVarint)
    else if b[0] < 128 then Ok(Varint(b[0], 1))
    else Continued(b[0] - 128, TakeRaw(b[1..]))
  }

  /** Seven low bits in front of the rest. */
  function Continued(low: nat, rest: Result<Varint>): Result<Varint> {
    match rest
    case Ok(v) => Ok(Varint(low + 128 * v.value, v.size + 1))
    case Error(e) => Error(e)
  }

  function TakeVarint(b: seq<Byte>): (r: Result<Varint>)
    ensures r.Ok? ==> 1 <= r.value.size <= |b|
  {
    match TakeRaw(b)
    case Ok(v) => if v.value > MAX_SAFE_INTEGER then Error(VarintTooBig) else Ok(v)
    case Error(e) => Error(e)
  }

  function EncodeVarint(n: nat): seq<Byte> {
    if n < 128 then [n] else [n % 128 + 128] + EncodeVarint(n / 128)
  }

  lemma {:induction false} RawReadsBack(n: nat, rest: seq<Byte>)
    ensures TakeRaw(EncodeVarint(n) + rest) == Ok(Varint(n, |EncodeVarint(n)|))
    decreases n
  {
    if n >= 128 {
      RawReadsBack(n / 128, rest);
      assert (EncodeVarint(n) + rest)[1..] == EncodeVarint(n / 128) + rest;
    }
  }

  /** Reading what was written stops exactly where the value ends. */
  lemma VarintReadsBack(n: nat, rest: seq<Byte>)
    ensures TakeVarint(EncodeVarint(n) + rest) ==
            if n > MAX_SAFE_INTEGER then Error(VarintTooBig) else Ok(Varint(n, |EncodeVarint(n)|))
  {
    RawReadsBack(n, rest);
  }

  /** The seven-bit digits read so far, lowest first, below a value still to come. */
  ghost function Below(digits: seq<nat>, high: nat): nat {
    if digits == [] then high
    else Below(digits[..|digits| - 1], digits[|digits| - 1] + 128 * high)
  }

  ghost function Resumed(digits: seq<nat>, rest: Result<Varint>): Result<Varint> {
    match rest
    case Ok(v) => Ok(Varint(Below(digits, v.value), |digits| + v.size))
    case Error(e) => Error(e)
  }

  function Power128(n: nat): nat {
    if n == 0 then 1 else 128 * Power128(n - 1)
  }

  lemma BelowOneMore(digits: seq<nat>, low: nat, high: nat)
    ensures Below(digits + [low], high) == Below(digits, low + 128 * high)
  {
    assert (digits + [low])[..|digits|] == digits;
  }

  lemma {:induction false} BelowIsScaled(digits: seq<nat>, high: nat)
    ensures Below(digits, high) == Below(digits, 0) + high * Power128(|digits|)
  {
    if digits != [] {
      var front, last, p := digits[..|digits| - 1], digits[|digits| - 1], Power128(|digits| - 1);
      BelowIsScaled(front, last + 128 * high);
      BelowIsScaled(front, last);
      Distribute(last, high, p);
    }
  }

  lemma Distribute(low: nat, high: nat, p: nat)
    ensures (low + 128 * high) * p == low * p + high * (128 * p)
  {
  }

  /** A digit read is a digit no longer to come. */
  lemma ResumeStep(digits: seq<nat>, low: nat, rest: Result<Varint>)
    ensures Resumed(digits, Continued(low, rest)) == Resumed(digits + [low], rest)
  {
    if rest.Ok? {
      BelowOneMore(digits, low, rest.value.value);
    }
  }

  lemma PlaceDigit(digits: seq<nat>, low: nat)
    ensures Below(digits + [low], 0) == Below(digits, 0) + low * Power128(|digits|)
    ensures Below(digits, low) == Below(digits, 0) + low * Power128(|digits|)
    ensures Power128(|digits + [low]|) == 128 * Power128(|digits|)
  {
    BelowOneMore(digits, low, 0);
    BelowIsScaled(digits, low);
  }

  method ReadVarint(buffer: seq<Byte>, start: nat) returns (r: Result<Varint>)
    requires start <= |buffer|
    ensures r == TakeVarint(buffer[start..])
  {
    var result: nat, scale: nat, offset := 0, 1, start;
    ghost var digits: seq<nat> := [];
    while offset < |buffer|
      invariant start <= offset <= |buffer| && |digits| == offset - start
      invariant result == Below(digits, 0) && scale == Power128(|digits|)
      invariant TakeRaw(buffer[start..]) == Resumed(digits, TakeRaw(buffer[offset..]))
    {
      var byte := buffer[offset];
      ghost var rest := buffer[offset..];
      assert rest[1..] == buffer[offset + 1..];
      PlaceDigit(digits, byte % 128);
      result := result + byte % 128 * scale;
      offset := offset + 1;
      if byte < 128 {
        return if result > MAX_SAFE_INTEGER then Error(VarintTooBig) else Ok(Varint(result, offset - start));
      }
      assert byte % 128 == byte - 128;
      ResumeStep(digits, byte - 128, TakeRaw(rest[1..]));
      digits := digits + [byte % 128];
      scale := 128 * scale;
    }
    assert buffer[offset..] == [];
    return Error(EndOfVarint);
  }

  // ---- Fields ----

  /** A field at the front and the bytes it takes. */
  datatype Taken = Taken(field: Field, size: nat)

  function KeyNumber(key: nat): nat {
    key % TWO_32 / 8
  }

  function KeyType(key: nat): nat {
    key % 8
  }

  /** What follows the key of a field. */
  function TakePayload(number: nat, wireType: nat, b: seq<Byte>): (r: Result<Taken>)
    ensures r.Ok? ==> r.value.size <= |b|
  {
    if number == 0 then Error(BadFieldNumber)
    else if wireType == 0 then
      (match TakeVarint(b)
       case Error(e) => Error(e)
       case Ok(v) => Ok(Taken(Number(number, v.value), v.size)))
    else if wireType == 2 then
      (match TakeVarint(b)
       case Error(e) => Error(e)
       case Ok(length) =>
         var end := length.size + length.value;
         if end > |b| then Error(BadLength) else Ok(Taken(Bytes(number, b[length.size..end]), end)))
    else Error(UnsupportedWireType(wireType))
  }

  function Behind(size: nat, r: Result<Taken>): Result<Taken> {
    match r
    case Ok(taken) => Ok(Taken(taken.field, size + taken.size))
    case Error(e) => Error(e)
  }

  function TakeField(b: seq<Byte>): (r: Result<Taken>)
    ensures r.Ok? ==> 1 <= r.value.size <= |b|
  {
    match TakeVarint(b)
    case Error(e) => Error(e)
    case Ok(key) => Behind(key.size, TakePayload(KeyNumber(key.value), KeyType(key.value), b[key.size..]))
  }

  function Parse(b: seq<Byte>): Result<seq<Field>>
    decreases |b|
  {
    if b == [] then Ok([])
    else
      match TakeField(b)
      case Error(e) => Error(e)
      case Ok(taken) =>
        match Parse(b[taken.size..])
        case Error(e) => Error(e)
        case Ok(rest) => Ok([taken.field] + rest)
  }

  ghost function After(fields: seq<Field>, rest: Result<seq<Field>>): Result<seq<Field>> {
    match rest
    case Ok(more) => Ok(fields + more)
    case Error(e) => Error(e)
  }

  lemma AfterOneMore(fields: seq<Field>, b: seq<Byte>, taken: Taken)
    requires b != [] && TakeField(b) == Ok(taken)
    ensures After(fields, Parse(b)) == After(fields + [taken.field], Parse(b[taken.size..]))
  {
    match Parse(b[taken.size..])
    case Ok(rest) => assert fields + ([taken.field] + rest) == fields + [taken.field] + rest;
    case Error(e) =>
  }

  lemma AfterNothing(rest: Result<seq<Field>>)
    ensures After([], rest) == rest
  {
    if rest.Ok? {
      assert [] + rest.value == rest.value;
    }
  }

  lemma SliceOfRest(buffer: seq<Byte>, next: nat, from: nat, end: nat)
    requires next <= from <= end <= |buffer|
    ensures buffer[next..][from - next..end - next] == buffer[from..end]
  {
  }

  /** One turn of the loop: the field that begins at `offset`. */
  method ReadField(buffer: seq<Byte>, offset: nat) returns (r: Result<Taken>)
    requires offset < |buffer|
    ensures r == TakeField(buffer[offset..])
  {
    var key := ReadVarint(buffer, offset);
    if key.Error? {
      return Error(key.error);
    }
    var next := offset + key.value.size;
    ghost var rest := buffer[next..];
    assert rest == buffer[offset..][key.value.size..];
    var number, wireType := KeyNumber(key.value.value), KeyType(key.value.value);
    if number <= 0 {
      return Error(BadFieldNumber);
    }
    if wireType == 0 {
      var v := ReadVarint(buffer, next);
      return if v.Error? then Error(v.error)
          else Ok(Taken(Number(number, v.value.value), key.value.size + v.value.size));
    }
    if wireType == 2 {
      var length := ReadVarint(buffer, next);
      if length.Error? {
        return Error(length.error);
      }
      var from := next + length.value.size;
      var end := from + length.value.value;
      if end > |buffer| {
        return Error(BadLength);
      }
      SliceOfRest(buffer, next, from, end);
      return Ok(Taken(Bytes(number, buffer[from..end]), end - offset));
    }
    return Error(UnsupportedWireType(wireType));
  }

  method ParseProtoFields(buffer: seq<Byte>) returns (r: Result<seq<Field>>)
    ensures r == Parse(buffer)
  {
    var fields: seq<Field> := [];
    var offset := 0;
    assert buffer[0..] == buffer;
    AfterNothing(Parse(buffer));
    while offset < |buffer|
      invariant offset <= |buffer|
      invariant Parse(buffer) == After(fields, Parse(buffer[offset..]))
    {
      var taken := ReadField(buffer, offset);
      if taken.Error? {
        return Error(taken.error);
      }
      AfterOneMore(fields, buffer[offset..], taken.value);
      assert buffer[offset..][taken.value.size..] == buffer[offset + taken.value.size..];
      fields := fields + [taken.value.field];
      offset := offset + taken.value.size;
    }
    assert buffer[offset..] == [];
    assert fields + [] == fields;
    return Ok(fields);
  }

  // ---- The encoder, and back ----

  predicate Canonical(f: Field) {
    && 1 <= f.number <= MAX_FIELD_NUMBER
    && match f
       case Number(_, value) => value <= MAX_SAFE_INTEGER
       case Bytes(_, data) => |data| <= MAX_SAFE_INTEGER
  }

  function WireType(f: Field): nat {
    if f.Number? then 0 else 2
  }

  function Key(f: Field): nat {
    f.number * 8 + WireType(f)
  }

  function EncodePayload(f: Field): seq<Byte> {
    match f
    case Number(_, value) => EncodeVarint(value)
    case Bytes(_, data) => EncodeVarint(|data|) + data
  }

  function EncodeField(f: Field): seq<Byte> {
    EncodeVarint(Key(f)) + EncodePayload(f)
  }

  function Encode(fields: seq<Field>): seq<Byte> {
    if fields == [] then [] else EncodeField(fields[0]) + Encode(fields[1..])
  }

  lemma Skip(a: seq<Byte>, b: seq<Byte>)
    ensures (a + b)[|a|..] == b
  {
  }

  /** A key is read off, whatever follows. */
  lemma KeyReadsBack(key: nat, number: nat, wireType: nat, payload: seq<Byte>)
    requires key <= MAX_SAFE_INTEGER && KeyNumber(key) == number && KeyType(key) == wireType
    ensures TakeField(EncodeVarint(key) + payload) ==
        Behind(|EncodeVarint(key)|, TakePayload(number, wireType, payload))
  {
    VarintReadsBack(key, payload);
    Skip(EncodeVarint(key), payload);
  }

  lemma KeyParts(key: nat, number: nat, wireType: nat)
    requires key == number * 8 + wireType && wireType < 8 && number <= MAX_FIELD_NUMBER
    ensures KeyNumber(key) == number && KeyType(key) == wireType && key <= MAX_SAFE_INTEGER
  {
  }

  lemma PayloadReadsBack(f: Field, rest: seq<Byte>)
    requires Canonical(f)
    ensures TakePayload(f.number, WireType(f), EncodePayload(f) + rest) == Ok(Taken(f, |EncodePayload(f)|))
  {
    match f
    case Number(number, value) => VarintReadsBack(value, rest);
    case Bytes(number, data) =>
      var length := EncodeVarint(|data|);
      assert EncodePayload(f) + rest == length + (data + rest);
      VarintReadsBack(|data|, data + rest);
      assert (length + (data + rest))[|length|..|length| + |data|] == data;
  }

  lemma FieldReadsBack(f: Field, rest: seq<Byte>)
    requires Canonical(f)
    ensures TakeField(EncodeField(f) + rest) == Ok(Taken(f, |EncodeField(f)|))
  {
    KeyParts(Key(f), f.number, WireType(f));
    KeyReadsBack(Key(f), f.number, WireType(f), EncodePayload(f) + rest);
    Reassociate(EncodeVarint(Key(f)), EncodePayload(f), rest);
    PayloadReadsBack(f, rest);
  }

  lemma Reassociate(a: seq<Byte>, b: seq<Byte>, c: seq<Byte>)
    ensures (a + b) + c == a + (b + c)
  {
  }

  /** Parsing inverts the canonical encoding, for every list of fields. */
  lemma {:induction false} FieldsReadBack(fields: seq<Field>)
    requires forall i :: 0 <= i < |fields| ==> Canonical(fields[i])
    ensures Parse(Encode(fields)) == Ok(fields)
  {
    if fields != [] {
      FieldsReadBack(fields[1..]);
      FieldReadsBack(fields[0], Encode(fields[1..]));
      Skip(EncodeField(fields[0]), Encode(fields[1..]));
      assert [fields[0]] + fields[1..] == fields;
    }
  }

  /** Whatever bytes are accepted, canonical or not, the fields read are canonical: encoded again they
      are read the same. */
  lemma {:induction false} ParsedIsCanonical(b: seq<Byte>)
    requires Parse(b).Ok? && |b| <= MAX_SAFE_INTEGER
    ensures forall i :: 0 <= i < |Parse(b).value| ==> Canonical(Parse(b).value[i])
    decreases |b|
  {
    if b != [] {
      ParsedIsCanonical(b[TakeField(b).value.size..]);
    }
  }

  lemma ParsedReencodes(b: seq<Byte>)
    requires Parse(b).Ok? && |b| <= MAX_SAFE_INTEGER
    ensures Parse(Encode(Parse(b).value)) == Parse(b)
  {
    ParsedIsCanonical(b);
    FieldsReadBack(Parse(b).value);
  }

  /** The field number is exact up to the protobuf maximum; a larger one is read modulo 2^29. */
  lemma FieldNumberIsModular(number: nat, value: nat)
    requires number * 8 <= MAX_SAFE_INTEGER && value <= MAX_SAFE_INTEGER
    ensures TakeField(EncodeVarint(number * 8) + EncodeVarint(value)) ==
      if number % (MAX_FIELD_NUMBER + 1) == 0 then Error(BadFieldNumber)
      else Ok(Taken(Number(number % (MAX_FIELD_NUMBER + 1), value), |EncodeVarint(number * 8)| + |EncodeVarint(value)|))
  {
    ModularKey(number);
    KeyReadsBack(number * 8, number % (MAX_FIELD_NUMBER + 1), 0, EncodeVarint(value));
    assert EncodeVarint(value) + [] == EncodeVarint(value);
    VarintReadsBack(value, []);
  }

  lemma ModularKey(number: nat)
    ensures KeyNumber(number * 8) == number % (MAX_FIELD_NUMBER + 1) && KeyType(number * 8) == 0
  {
  }
}
