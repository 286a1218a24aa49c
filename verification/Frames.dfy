/** The reader of inbound binary frames: document name, message type, sync type, update, each length
    and type an unsigned LEB128 number (section 7.6 of DWARF v5) of at most five bytes. */
module Frames {
  import opened Documents

  type Byte = x: int | 0 <= x < 256

  const MAX_BYTES := 5
  const VARINT_LIMIT := 0x8_0000_0000

  datatype Read = Read(value: Option<nat>, next: nat)

  function Scaled(low: nat, scale: nat, high: Option<nat>): Option<nat> {
    if high.None? then None else Some(low + scale * high.value)
  }

  /** What is read at `pos` with `budget` bytes left. */
  function VarUint(input: seq<Byte>, pos: nat, budget: nat): (r: Read)
    requires pos <= |input|
    ensures pos <= r.next <= |input| && r.next <= pos + budget
    decreases |input| - pos
  {
    if pos == |input| || budget == 0 then Read(None, pos)
    else if input[pos] < 128 then Read(Some(input[pos]), pos + 1)
    else
      var rest := VarUint(input, pos + 1, budget - 1);
      Read(Scaled(input[pos] - 128, 128, rest.value), rest.next)
  }

  class Offset {
    var value: nat

    constructor ()
      ensures value == 0
    {
      value := 0;
    }
  }

  method ReadVarUint(input: seq<Byte>, offset: Offset) returns (number: Option<nat>)
    requires offset.value <= |input|
    modifies offset
    ensures Read(number, offset.value) == VarUint(input, old(offset.value), MAX_BYTES)
  {
    var result: nat, shift: nat, scale: nat := 0, 0, 1;
    ghost var budget: nat := MAX_BYTES;
    while offset.value < |input| && shift < 35
      invariant old(offset.value) <= offset.value <= |input|
      invariant shift == 7 * (MAX_BYTES - budget)
      invariant VarUint(input, old(offset.value), MAX_BYTES)
             == Resume(input, offset.value, budget, result, scale)
      decreases 35 - shift
    {
      var byte: nat := input[offset.value];
      ResumeStep(input, offset.value, budget, result, scale);
      offset.value := offset.value + 1;
      result := result + (byte % 128) * scale;
      if byte < 128 {
        return Some(result);
      }
      shift := shift + 7;
      scale := scale * 128;
      budget := budget - 1;
    }
    return None;
  }

  /** The whole read, when `result` holds the groups before `pos` and the next one counts `scale`. */
  ghost function Resume(input: seq<Byte>, pos: nat, budget: nat, result: nat, scale: nat): Read
    requires pos <= |input|
  {
    var rest := VarUint(input, pos, budget);
    Read(Scaled(result, scale, rest.value), rest.next)
  }

  lemma ResumeStep(input: seq<Byte>, pos: nat, budget: nat, result: nat, scale: nat)
    requires pos < |input| && budget > 0
    ensures var byte := input[pos];
      Resume(input, pos, budget, result, scale) ==
        if byte < 128 then Read(Some(result + byte * scale), pos + 1)
        else Resume(input, pos + 1, budget - 1, result + (byte - 128) * scale, scale * 128)
  {
    var rest := VarUint(input, pos + 1, budget - 1);
    if input[pos] >= 128 && rest.value.Some? {
      Regroup(result, input[pos] - 128, scale, rest.value.value);
    }
  }

  lemma Regroup(result: nat, low: nat, scale: nat, high: nat)
    ensures result + scale * (low + 128 * high) == result + low * scale + (scale * 128) * high
  {
  }

  // ---------- LEB128 ----------

  function Encode(n: nat): seq<Byte> {
    if n < 128 then [n] else [128 + n % 128] + Encode(n / 128)
  }

  /** The number a byte string denotes, low group first. */
  function Number(bytes: seq<Byte>): nat {
    if bytes == [] then 0 else bytes[0] % 128 + 128 * Number(bytes[1..])
  }

  /** `bytes` is an unsigned LEB128 number of at most five bytes, not necessarily the shortest one. */
  ghost predicate IsVarUint(bytes: seq<Byte>, n: nat) {
    && 1 <= |bytes| <= MAX_BYTES
    && (forall i :: 0 <= i < |bytes| - 1 ==> bytes[i] >= 128)
    && bytes[|bytes| - 1] < 128
    && Number(bytes) == n
  }

  lemma {:induction false} ReadsNumber(input: seq<Byte>, pos: nat, budget: nat, bytes: seq<Byte>)
    requires bytes != [] && |bytes| <= budget && pos + |bytes| <= |input|
    requires input[pos..pos + |bytes|] == bytes
    requires (forall i :: 0 <= i < |bytes| - 1 ==> bytes[i] >= 128) && bytes[|bytes| - 1] < 128
    ensures VarUint(input, pos, budget) == Read(Some(Number(bytes)), pos + |bytes|)
    decreases budget
  {
    assert input[pos] == bytes[0];
    if |bytes| > 1 {
      assert input[pos + 1..pos + 1 + |bytes[1..]|] == bytes[1..];
      ReadsNumber(input, pos + 1, budget - 1, bytes[1..]);
    } else {
      assert bytes[1..] == [];
    }
  }

  lemma {:induction false} ReadIsNumber(input: seq<Byte>, pos: nat, budget: nat)
    requires pos <= |input|
    ensures var r := VarUint(input, pos, budget);
            var bytes := input[pos..r.next];
      && (r.value.Some? ==>
            && 1 <= |bytes| <= budget && Number(bytes) == r.value.value && bytes[|bytes| - 1] < 128
            && forall i :: 0 <= i < |bytes| - 1 ==> bytes[i] >= 128)
      && (r.value.None? ==>
            && (forall i :: 0 <= i < |bytes| ==> bytes[i] >= 128)
            && (r.next == |input| || |bytes| == budget))
    decreases budget
  {
    if pos < |input| && budget > 0 {
      var r := VarUint(input, pos, budget);
      if input[pos] < 128 {
        assert input[pos..pos + 1][1..] == [];
      } else {
        ReadIsNumber(input, pos + 1, budget - 1);
        var bytes := input[pos..r.next];
        assert bytes[1..] == input[pos + 1..r.next];
        forall i | 1 <= i < |bytes| ensures bytes[i] == bytes[1..][i - 1] {
        }
      }
    }
  }

  /** The reader accepts exactly the LEB128 numbers of up to five bytes, and returns their value. */
  lemma ReadsExactlyVarUints(prefix: seq<Byte>, rest: seq<Byte>, bytes: seq<Byte>, n: nat)
    ensures IsVarUint(bytes, n) ==>
              VarUint(prefix + bytes + rest, |prefix|, MAX_BYTES) == Read(Some(n), |prefix| + |bytes|)
    ensures VarUint(prefix + bytes + rest, |prefix|, MAX_BYTES) == Read(Some(n), |prefix| + |bytes|) ==>
              IsVarUint(bytes, n)
  {
    var input := prefix + bytes + rest;
    assert input[|prefix|..|prefix| + |bytes|] == bytes;
    if IsVarUint(bytes, n) {
      ReadsNumber(input, |prefix|, MAX_BYTES, bytes);
    }
    ReadIsNumber(input, |prefix|, MAX_BYTES);
  }

  function Pow128(k: nat): nat {
    if k == 0 then 1 else 128 * Pow128(k - 1)
  }

  lemma {:induction false} EncodeShape(n: nat)
    ensures var bytes := Encode(n);
      && Number(bytes) == n && bytes[|bytes| - 1] < 128
      && forall i :: 0 <= i < |bytes| - 1 ==> bytes[i] >= 128
    decreases n
  {
    var bytes := Encode(n);
    if n >= 128 {
      var high := Encode(n / 128);
      EncodeShape(n / 128);
      assert bytes[1..] == high;
      forall i | 1 <= i < |bytes| ensures bytes[i] == high[i - 1] {
      }
    } else {
      assert bytes[1..] == [];
    }
  }

  lemma {:induction false} EncodeLength(n: nat, k: nat)
    requires k >= 1
    ensures |Encode(n)| <= k <==> n < Pow128(k)
    decreases k
  {
    var p := Pow128(k - 1);
    Pow128Positive(k - 1);
    assert Pow128(k) == 128 * p;
    if n >= 128 {
      if k > 1 {
        EncodeLength(n / 128, k - 1);
        assert n / 128 < p <==> n < 128 * p;
      } else {
        assert |Encode(n)| == 1 + |Encode(n / 128)|;
        EncodeShape(n / 128);
      }
    }
  }

  lemma {:induction false} Pow128Positive(k: nat)
    ensures Pow128(k) >= 1
  {
    if k > 0 {
      Pow128Positive(k - 1);
    }
  }

  /** Reading inverts encoding exactly below 2^35; longer encodings are refused. */
  lemma VarUintInvertsEncode(prefix: seq<Byte>, n: nat, rest: seq<Byte>)
    ensures IsVarUint(Encode(n), n) <==> n < VARINT_LIMIT
    ensures var r := VarUint(prefix + Encode(n) + rest, |prefix|, MAX_BYTES);
      if n < VARINT_LIMIT then r == Read(Some(n), |prefix| + |Encode(n)|) else r.value == None
  {
    EncodeShape(n);
    EncodeLength(n, MAX_BYTES);
    assert Pow128(5) == VARINT_LIMIT by {
      assert Pow128(1) == 128 * Pow128(0);
      assert Pow128(2) == 128 * Pow128(1);
      assert Pow128(3) == 128 * Pow128(2);
    }
    ReadsExactlyVarUints(prefix, rest, Encode(n), n);
    if n >= VARINT_LIMIT {
      Overlong(prefix, Encode(n), rest, MAX_BYTES);
    }
  }

  lemma {:induction false} Overlong(prefix: seq<Byte>, bytes: seq<Byte>, rest: seq<Byte>, budget: nat)
    requires |bytes| > budget && forall i :: 0 <= i < |bytes| - 1 ==> bytes[i] >= 128
    ensures VarUint(prefix + bytes + rest, |prefix|, budget).value == None
    decreases budget
  {
    if budget > 0 {
      assert prefix + bytes + rest == (prefix + bytes[..1]) + bytes[1..] + rest;
      Overlong(prefix + bytes[..1], bytes[1..], rest, budget - 1);
    }
  }

  // ---------- Frames ----------

  function Inbound(message: seq<Byte>): Option<seq<Byte>> {
    AfterLength(message, VarUint(message, 0, MAX_BYTES))
  }

  function AfterLength(message: seq<Byte>, length: Read): Option<seq<Byte>>
    requires length.next <= |message|
  {
    if length.value.None? || length.value.value > |message| - length.next then None
    else AfterKind(message, VarUint(message, length.next + length.value.value, MAX_BYTES))
  }

  function AfterKind(message: seq<Byte>, kind: Read): Option<seq<Byte>>
    requires kind.next <= |message|
  {
    if kind.value != Some(0) && kind.value != Some(4) then None
    else AfterSync(message, VarUint(message, kind.next, MAX_BYTES))
  }

  function AfterSync(message: seq<Byte>, sync: Read): Option<seq<Byte>>
    requires sync.next <= |message|
  {
    if sync.value != Some(2) then None else AfterSize(message, VarUint(message, sync.next, MAX_BYTES))
  }

  function AfterSize(message: seq<Byte>, size: Read): Option<seq<Byte>>
    requires size.next <= |message|
  {
    if size.value.None? || size.value.value > |message| - size.next then None
    else Some(message[size.next..size.next + size.value.value])
  }

  /** Every read is in bounds, whatever the input. */
  method InboundYjsUpdate(message: seq<Byte>) returns (update: Option<seq<Byte>>)
    ensures update == Inbound(message)
  {
    var offset := new Offset();
    var documentNameLength := ReadVarUint(message, offset);
    assert Inbound(message) == AfterLength(message, Read(documentNameLength, offset.value));
    if documentNameLength == None || documentNameLength.value > |message| - offset.value {
      return None;
    }
    offset.value := offset.value + documentNameLength.value;
    var messageType := ReadVarUint(message, offset);
    assert Inbound(message) == AfterKind(message, Read(messageType, offset.value));
    if messageType != Some(0) && messageType != Some(4) {
      return None;
    }
    var syncType := ReadVarUint(message, offset);
    assert Inbound(message) == AfterSync(message, Read(syncType, offset.value));
    if syncType != Some(2) {
      return None;
    }
    var updateLength := ReadVarUint(message, offset);
    assert Inbound(message) == AfterSize(message, Read(updateLength, offset.value));
    if updateLength == None || updateLength.value > |message| - offset.value {
      return None;
    }
    return Some(message[offset.value..offset.value + updateLength.value]);
  }

  /** An encoded frame followed by `trailing`. */
  function Frame(name: seq<Byte>, kind: nat, sync: nat, update: seq<Byte>, trailing: seq<Byte>): seq<Byte> {
    Encode(|name|) + (name + (Encode(kind) + (Encode(sync) + (Encode(|update|) + (update + trailing)))))
  }

  lemma SplitAt(message: seq<Byte>, pos: nat, head: seq<Byte>, tail: seq<Byte>)
    requires pos <= |message| && message[pos..] == head + tail
    ensures pos + |head| <= |message|
    ensures message[pos..pos + |head|] == head && message[pos + |head|..] == tail
  {
    assert message[pos..pos + |head|] == message[pos..][..|head|];
    assert message[pos + |head|..] == message[pos..][|head|..];
  }

  /** A number that is read holds what was encoded, or nothing from 2^35 on. */
  predicate Holds(read: Read, n: nat) {
    read.value == if n < VARINT_LIMIT then Some(n) else None
  }

  lemma NumberIsRead(message: seq<Byte>, pos: nat, n: nat, tail: seq<Byte>)
    requires pos <= |message| && message[pos..] == Encode(n) + tail
    ensures var r := VarUint(message, pos, MAX_BYTES);
      Holds(r, n) && (n < VARINT_LIMIT ==> message[r.next..] == tail)
  {
    SplitAt(message, pos, Encode(n), tail);
    assert message == message[..pos] + Encode(n) + tail;
    VarUintInvertsEncode(message[..pos], n, tail);
  }

  lemma SizeIsRead(message: seq<Byte>, size: Read, update: seq<Byte>, trailing: seq<Byte>)
    requires size.next <= |message| && Holds(size, |update|)
    requires |update| < VARINT_LIMIT ==> message[size.next..] == update + trailing
    ensures AfterSize(message, size) == if |update| < VARINT_LIMIT then Some(update) else None
  {
    if |update| < VARINT_LIMIT {
      SplitAt(message, size.next, update, trailing);
    }
  }

  lemma SyncIsRead(message: seq<Byte>, read: Read, sync: nat, update: seq<Byte>, trailing: seq<Byte>)
    requires read.next <= |message| && Holds(read, sync)
    requires sync < VARINT_LIMIT ==> message[read.next..] == Encode(|update|) + (update + trailing)
    ensures AfterSync(message, read) == if sync == 2 && |update| < VARINT_LIMIT then Some(update) else None
  {
    if sync == 2 {
      NumberIsRead(message, read.next, |update|, update + trailing);
      SizeIsRead(message, VarUint(message, read.next, MAX_BYTES), update, trailing);
    }
  }

  lemma KindIsRead(message: seq<Byte>, read: Read, kind: nat, sync: nat, update: seq<Byte>, trailing: seq<Byte>)
    requires read.next <= |message| && Holds(read, kind)
    requires kind < VARINT_LIMIT ==>
               message[read.next..] == Encode(sync) + (Encode(|update|) + (update + trailing))
    ensures AfterKind(message, read)
         == if (kind == 0 || kind == 4) && sync == 2 && |update| < VARINT_LIMIT then Some(update) else None
  {
    if kind == 0 || kind == 4 {
      NumberIsRead(message, read.next, sync, Encode(|update|) + (update + trailing));
      SyncIsRead(message, VarUint(message, read.next, MAX_BYTES), sync, update, trailing);
    }
  }

  lemma LengthIsRead(message: seq<Byte>, read: Read, name: seq<Byte>, body: seq<Byte>)
    requires read.next <= |message| && Holds(read, |name|)
    requires |name| < VARINT_LIMIT ==> message[read.next..] == name + body
    ensures |name| >= VARINT_LIMIT ==> AfterLength(message, read) == None
    ensures |name| < VARINT_LIMIT ==>
              && read.next + |name| <= |message| && message[read.next + |name|..] == body
              && AfterLength(message, read)
              == AfterKind(message, VarUint(message, read.next + |name|, MAX_BYTES))
  {
    if |name| < VARINT_LIMIT {
      SplitAt(message, read.next, name, body);
    }
  }

  lemma NameIsRead(message: seq<Byte>, name: seq<Byte>, body: seq<Byte>) returns (pos: nat)
    requires message == Encode(|name|) + (name + body)
    ensures pos <= |message|
    ensures |name| >= VARINT_LIMIT ==> Inbound(message) == None
    ensures |name| < VARINT_LIMIT ==>
              message[pos..] == body && Inbound(message) == AfterKind(message, VarUint(message, pos, MAX_BYTES))
  {
    var length := VarUint(message, 0, MAX_BYTES);
    assert message[0..] == message;
    NumberIsRead(message, 0, |name|, name + body);
    LengthIsRead(message, length, name, body);
    pos := if |name| < VARINT_LIMIT then length.next + |name| else 0;
  }

  lemma BodyIsRead(message: seq<Byte>, pos: nat, kind: nat, sync: nat, update: seq<Byte>, trailing: seq<Byte>)
    requires pos <= |message|
    requires message[pos..] == Encode(kind) + (Encode(sync) + (Encode(|update|) + (update + trailing)))
    ensures AfterKind(message, VarUint(message, pos, MAX_BYTES))
         == if (kind == 0 || kind == 4) && sync == 2 && |update| < VARINT_LIMIT then Some(update) else None
  {
    NumberIsRead(message, pos, kind, Encode(sync) + (Encode(|update|) + (update + trailing)));
    KindIsRead(message, VarUint(message, pos, MAX_BYTES), kind, sync, update, trailing);
  }

  /** Reading an encoded frame followed by anything gives back exactly its update when it is a sync
      message of kind 0 or 4 carrying sync type 2, and nothing otherwise: the sync handshake is not
      read as an update. */
  lemma FrameRoundTrip(name: seq<Byte>, kind: nat, sync: nat, update: seq<Byte>, trailing: seq<Byte>)
    ensures Inbound(Frame(name, kind, sync, update, trailing))
         == if |name| < VARINT_LIMIT && (kind == 0 || kind == 4) && sync == 2 && |update| < VARINT_LIMIT
            then Some(update) else None
  {
    var message := Frame(name, kind, sync, update, trailing);
    var pos := NameIsRead(message, name, Encode(kind) + (Encode(sync) + (Encode(|update|) + (update + trailing))));
    if |name| < VARINT_LIMIT {
      BodyIsRead(message, pos, kind, sync, update, trailing);
    }
  }

  lemma Cut(message: seq<Byte>, i: nat, j: nat)
    requires i <= j <= |message|
    ensures message[i..] == message[i..j] + message[j..]
  {
  }

  lemma CutTwice(message: seq<Byte>, i: nat, j: nat)
    requires i <= j <= |message|
    ensures message == message[0..i] + (message[i..j] + message[j..])
  {
    Cut(message, i, j);
    Cut(message, 0, i);
    assert message[0..] == message;
  }

  lemma ReadIsVarUint(message: seq<Byte>, pos: nat)
    requires pos <= |message| && VarUint(message, pos, MAX_BYTES).value.Some?
    ensures var r := VarUint(message, pos, MAX_BYTES);
      IsVarUint(message[pos..r.next], r.value.value)
  {
    ReadIsNumber(message, pos, MAX_BYTES);
  }

  lemma SizeIsFramed(message: seq<Byte>, pos: nat) returns (size: seq<Byte>, trailing: seq<Byte>)
    requires pos <= |message| && AfterSize(message, VarUint(message, pos, MAX_BYTES)).Some?
    ensures var update := AfterSize(message, VarUint(message, pos, MAX_BYTES)).value;
      message[pos..] == size + (update + trailing) && IsVarUint(size, |update|)
  {
    var r := VarUint(message, pos, MAX_BYTES);
    ReadIsVarUint(message, pos);
    size, trailing := message[pos..r.next], message[r.next + r.value.value..];
    Cut(message, pos, r.next);
    Cut(message, r.next, r.next + r.value.value);
  }

  lemma SyncIsFramed(message: seq<Byte>, pos: nat)
    returns (sync: seq<Byte>, size: seq<Byte>, trailing: seq<Byte>)
    requires pos <= |message| && AfterSync(message, VarUint(message, pos, MAX_BYTES)).Some?
    ensures var update := AfterSync(message, VarUint(message, pos, MAX_BYTES)).value;
      && message[pos..] == sync + (size + (update + trailing))
      && IsVarUint(sync, 2) && IsVarUint(size, |update|)
  {
    var r := VarUint(message, pos, MAX_BYTES);
    ReadIsVarUint(message, pos);
    size, trailing := SizeIsFramed(message, r.next);
    sync := message[pos..r.next];
    Cut(message, pos, r.next);
  }

  lemma KindIsFramed(message: seq<Byte>, pos: nat)
    returns (kind: seq<Byte>, sync: seq<Byte>, size: seq<Byte>, trailing: seq<Byte>)
    requires pos <= |message| && AfterKind(message, VarUint(message, pos, MAX_BYTES)).Some?
    ensures var update := AfterKind(message, VarUint(message, pos, MAX_BYTES)).value;
      && message[pos..] == kind + (sync + (size + (update + trailing)))
      && (IsVarUint(kind, 0) || IsVarUint(kind, 4)) && IsVarUint(sync, 2) && IsVarUint(size, |update|)
  {
    var r := VarUint(message, pos, MAX_BYTES);
    ReadIsVarUint(message, pos);
    sync, size, trailing := SyncIsFramed(message, r.next);
    kind := message[pos..r.next];
    Cut(message, pos, r.next);
  }

  lemma NameFits(message: seq<Byte>, length: Read)
    requires length.next <= |message| && AfterLength(message, length).Some?
    ensures length.value.Some? && length.next + length.value.value <= |message|
    ensures AfterLength(message, length)
         == AfterKind(message, VarUint(message, length.next + length.value.value, MAX_BYTES))
  {
  }

  lemma NameIsFramed(message: seq<Byte>, r: Read) returns (length: seq<Byte>, name: seq<Byte>)
    requires r == VarUint(message, 0, MAX_BYTES) && r.value.Some? && r.next + r.value.value <= |message|
    ensures IsVarUint(length, |name|)
    ensures message == length + (name + message[r.next + r.value.value..])
  {
    length, name := message[0..r.next], message[r.next..r.next + r.value.value];
    ReadIsVarUint(message, 0);
    CutTwice(message, r.next, r.next + r.value.value);
  }

  lemma LengthIsFramed(message: seq<Byte>) returns (length: seq<Byte>, name: seq<Byte>, pos: nat)
    requires Inbound(message).Some?
    ensures IsVarUint(length, |name|) && pos <= |message|
    ensures message == length + (name + message[pos..])
    ensures Inbound(message) == AfterKind(message, VarUint(message, pos, MAX_BYTES))
  {
    var r := VarUint(message, 0, MAX_BYTES);
    NameFits(message, r);
    pos := r.next + r.value.value;
    length, name := NameIsFramed(message, r);
  }

  /** Nothing else is read: whatever comes back is the payload of a frame the message starts with. */
  lemma InboundIsFrame(message: seq<Byte>)
    returns (length: seq<Byte>, name: seq<Byte>, kind: seq<Byte>, sync: seq<Byte>, size: seq<Byte>,
             trailing: seq<Byte>)
    requires Inbound(message).Some?
    ensures message == length + (name + (kind + (sync + (size + (Inbound(message).value + trailing)))))
    ensures IsVarUint(length, |name|) && (IsVarUint(kind, 0) || IsVarUint(kind, 4)) && IsVarUint(sync, 2)
    ensures IsVarUint(size, |Inbound(message).value|)
  {
    var pos: nat;
    length, name, pos := LengthIsFramed(message);
    kind, sync, size, trailing := KindIsFramed(message, pos);
  }
}
