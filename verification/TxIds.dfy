/** Transaction ids (mpc-client/src/signer.rs) and the room a signing session meets in
    (participant/src/signing.rs). */
module TxIds {
  import opened Bits
  import opened Common
  import opened Decimal

  const I32_MIN: int := -0x8000_0000
  const I32_END: int := 0x8000_0000

  // ----- 32-bit patterns -----

  /** Two's complement reading of a 32-bit pattern. */
  function AsI32(bits: nat): int {
    if bits < 0x8000_0000 then bits else bits - 0x1_0000_0000
  }

  /** `((instance as i32) << 16) | (counter as i32)`, as the source computes it. */
  function ShiftedOrred(instance: nat, counter: nat): int {
    AsI32(Or(Shl32(instance, 16), counter))
  }

  /** Nothing is shifted out of a 16-bit instance id, and the counter goes into the free bits:
      the source's bit operations are the sum used below. */
  lemma ShiftOrPacks(instance: nat, counter: nat)
    requires instance < U16_SIZE && counter < U16_SIZE
    ensures ShiftedOrred(instance, counter) == TxId(instance, counter)
  {
    WordSizes();
    NothingShiftedOut(instance, Pow2(16));
    OrFillsLowBits(instance, counter, 16);
  }

  lemma WordSizes()
    ensures Pow2(16) == U16_SIZE && Pow2(32) == 0x1_0000_0000
  {
    assert Pow2(8) == 256;
    assert Pow2(16) == U16_SIZE;
    assert Pow2(24) == 0x100_0000;
  }

  lemma NothingShiftedOut(a: nat, p: nat)
    requires a < U16_SIZE && p == U16_SIZE
    ensures a * p % 0x1_0000_0000 == a * p == a * U16_SIZE
  {
  }

  method Pack(instance: nat, counter: nat) returns (id: int)
    requires instance < U16_SIZE && counter < U16_SIZE
    ensures id == TxId(instance, counter)
  {
    ShiftOrPacks(instance, counter);
    id := ShiftedOrred(instance, counter);
  }

  // ----- ids -----

  /** The 32-bit pattern of an id, as a sum. */
  function Packed(instance: nat, counter: nat): nat {
    instance * U16_SIZE + counter
  }

  function TxId(instance: nat, counter: nat): int {
    AsI32(Packed(instance, counter))
  }

  function PatternOf(id: int): nat
    requires I32_MIN <= id < I32_END
  {
    if id < 0 then id + 0x1_0000_0000 else id
  }

  /** The fields of an id. */
  function InstanceOf(id: int): nat
    requires I32_MIN <= id < I32_END
  {
    PatternOf(id) / U16_SIZE
  }

  function CounterOf(id: int): nat
    requires I32_MIN <= id < I32_END
  {
    PatternOf(id) % U16_SIZE
  }

  /** Packing is a bijection between pairs of 16-bit values and the i32 values, whether or not
      the instance id has its top bit set. */
  lemma PackThenUnpack(instance: nat, counter: nat)
    requires instance < U16_SIZE && counter < U16_SIZE
    ensures I32_MIN <= TxId(instance, counter) < I32_END
    ensures InstanceOf(TxId(instance, counter)) == instance
    ensures CounterOf(TxId(instance, counter)) == counter
    ensures TxId(instance, counter) < 0 <==> instance >= 0x8000
  {
    assert PatternOf(TxId(instance, counter)) == instance * U16_SIZE + counter;
  }

  lemma UnpackThenPack(id: int)
    requires I32_MIN <= id < I32_END
    ensures InstanceOf(id) < U16_SIZE && CounterOf(id) < U16_SIZE
    ensures TxId(InstanceOf(id), CounterOf(id)) == id
  {
    assert PatternOf(id) == PatternOf(id) / U16_SIZE * U16_SIZE + PatternOf(id) % U16_SIZE;
  }

  // ----- sessions -----

  /** The `call`-th signing request, from 0, of one signer object, which has drawn this instance
      id; different signers may have drawn the same. */
  datatype Session = Session(signer: nat, instance: nat, call: nat)

  function SessionId(s: Session): int {
    TxId(s.instance, s.call % U16_SIZE)
  }

  /** Room id on the broker: the last path segment of the participant's URL. */
  function RoomOf(s: Session): string {
    "signing_" + PrintInt(SessionId(s))
  }

  /** A room's name spells out the id in decimal, with a minus sign exactly when the instance id
      has its top bit set. */
  lemma RoomNameSpellsId(s: Session)
    requires s.instance < U16_SIZE
    ensures |RoomOf(s)| >= 9
    ensures RoomOf(s)[..8] == "signing_" && (RoomOf(s)[8] == '-' <==> s.instance >= 0x8000)
    ensures var bits := s.instance * U16_SIZE + s.call % U16_SIZE;
            if s.instance < 0x8000 then DigitsValue(RoomOf(s)[8..]) == Some(bits)
            else DigitsValue(RoomOf(s)[9..]) == Some(0x1_0000_0000 - bits)
  {
    var id := SessionId(s);
    PackThenUnpack(s.instance, s.call % U16_SIZE);
    PrintedDigits(if id < 0 then -id else id);
    assert RoomOf(s)[8..] == PrintInt(id);
    if id < 0 { assert RoomOf(s)[9..] == PrintInt(id)[1..] == PrintNat(-id); }
  }

  /** The signers' instance ids are equal, and the calls a multiple of 65,536 apart: the calls
      may well be equal, if the signers are not. */
  predicate Collide(s: Session, t: Session) {
    s.instance == t.instance && s.call % U16_SIZE == t.call % U16_SIZE
  }

  /** Two sessions meet in the same room exactly when they collide: ids have period 65,536
      within an instance id and never meet across instance ids. */
  lemma SameRoomIff(s: Session, t: Session)
    requires s.instance < U16_SIZE && t.instance < U16_SIZE
    ensures RoomOf(s) == RoomOf(t) <==> Collide(s, t)
  {
    PackThenUnpack(s.instance, s.call % U16_SIZE);
    PackThenUnpack(t.instance, t.call % U16_SIZE);
    if RoomOf(s) == RoomOf(t) {
      assert RoomOf(s)[8..] == PrintInt(SessionId(s)) && RoomOf(t)[8..] == PrintInt(SessionId(t));
      PrintIntInjective(SessionId(s), SessionId(t));
    }
  }
}
