/**
 * The shuffle decoder (`shuffleDecoder`): from an eight-bit mask of selected
 * lanes to their number and their lane indices, packed three bits each, lowest
 * lane first; and the fields the filter stage cuts out of the packed word.
 */
module Decoder {
  datatype Lanes = Lanes(num: nat, idx: nat)

  // The rule behind the 256-entry table, for a mask whose lowest bit stands
  // for the given lane.
  function Packed(mask: nat, lane: nat): Lanes
    requires lane <= 8
    decreases mask, 8 - lane
  {
    if lane == 8 then Lanes(0, 0)
    else
      var rest := Packed(mask / 2, lane + 1);
      if mask % 2 == 1 then Lanes(rest.num + 1, lane + 8 * rest.idx) else rest
  }

  // The selected lanes from the given one on, in ascending order.
  function Selected(valid: seq<bool>, lane: nat): (lanes: seq<nat>)
    requires lane <= |valid| == 8
    ensures |lanes| <= 8 - lane
    ensures forall j :: 0 <= j < |lanes| ==> lane <= lanes[j] < 8 && valid[lanes[j]]
    decreases |valid| - lane
  {
    if lane == 8 then [] else (if valid[lane] then [lane] else []) + Selected(valid, lane + 1)
  }

  function Bit(b: bool): nat {
    if b then 1 else 0
  }

  function Mask(valid: seq<bool>, lane: nat): (mask: nat)
    requires lane <= |valid| == 8
    decreases |valid| - lane
  {
    if lane == 8 then 0 else Bit(valid[lane]) + 2 * Mask(valid, lane + 1)
  }

  // The j-th group of three bits of a packed index word.
  function Field(idx: nat, j: nat): (lane: nat)
    ensures lane < 8
    decreases j, idx
  {
    if j == 0 then idx % 8 else Field(idx / 8, j - 1)
  }

  // Lane indices packed three bits each.
  function Pack(lanes: seq<nat>): nat {
    if lanes == [] then 0 else lanes[0] + 8 * Pack(lanes[1..])
  }

  lemma {:induction false} FieldOfPack(lanes: seq<nat>, j: nat)
    requires j < |lanes| && forall i :: 0 <= i < |lanes| ==> lanes[i] < 8
    ensures Field(Pack(lanes), j) == lanes[j]
    decreases j
  {
    var rest := Pack(lanes[1..]);
    assert (lanes[0] + 8 * rest) / 8 == rest && (lanes[0] + 8 * rest) % 8 == lanes[0];
    if j > 0 { FieldOfPack(lanes[1..], j - 1); }
  }

  // One more lane in front of the lanes s.
  lemma PackedStep(b: bool, mask: nat, lane: nat, s: seq<nat>)
    requires lane < 8 && Packed(mask, lane + 1) == Lanes(|s|, Pack(s))
    ensures Packed(Bit(b) + 2 * mask, lane) == if b then Lanes(|[lane] + s|, Pack([lane] + s)) else Lanes(|s|, Pack(s))
  {
    assert (Bit(b) + 2 * mask) / 2 == mask && (Bit(b) + 2 * mask) % 2 == Bit(b);
    assert ([lane] + s)[1..] == s;
  }

  lemma SelectStep(valid: seq<bool>, lane: nat)
    requires lane < |valid| == 8
    ensures var s := Selected(valid, lane + 1);
            Selected(valid, lane) == if valid[lane] then [lane] + s else s
    ensures Mask(valid, lane) == Bit(valid[lane]) + 2 * Mask(valid, lane + 1)
  {
  }

  lemma NoneSelected(valid: seq<bool>)
    requires |valid| == 8
    ensures Mask(valid, 8) == 0 && Selected(valid, 8) == [] && Packed(0, 8) == Lanes(0, Pack([]))
  {
  }

  lemma {:induction false} PackedSelects(valid: seq<bool>, lane: nat)
    requires lane <= |valid| == 8
    ensures Packed(Mask(valid, lane), lane) == Lanes(|Selected(valid, lane)|, Pack(Selected(valid, lane)))
    decreases 8 - lane
  {
    hide Mask, Selected, Packed, Pack;
    if lane < 8 {
      PackedSelects(valid, lane + 1);
      SelectStep(valid, lane);
      PackedStep(valid[lane], Mask(valid, lane + 1), lane, Selected(valid, lane + 1));
    } else {
      NoneSelected(valid);
    }
  }

  lemma {:induction false} NothingSelected(valid: seq<bool>, lane: nat)
    requires lane <= |valid| == 8
    ensures Mask(valid, lane) == 0 <==> Selected(valid, lane) == []
    decreases 8 - lane
  {
    if lane < 8 { NothingSelected(valid, lane + 1); }
  }

  // The opcode the shuffle builds from its eight valid bits.
  function Opcode(valid: seq<bool>): (opcode: nat)
    requires |valid| == 8
    ensures opcode == Mask(valid, 0)
  {
    assert Mask(valid, 7) == Bit(valid[7]);
    assert Mask(valid, 5) == Bit(valid[5]) + 2 * Bit(valid[6]) + 4 * Bit(valid[7]);
    assert Mask(valid, 3) == Bit(valid[3]) + 2 * Bit(valid[4]) + 4 * Mask(valid, 5);
    assert Mask(valid, 1) == Bit(valid[1]) + 2 * Bit(valid[2]) + 4 * Mask(valid, 3);
    Bit(valid[0]) + 2 * Bit(valid[1]) + 4 * Bit(valid[2]) + 8 * Bit(valid[3])
      + 16 * Bit(valid[4]) + 32 * Bit(valid[5]) + 64 * Bit(valid[6]) + 128 * Bit(valid[7])
  }

  function ShuffleDecoder(opcode: nat): Lanes {
    Packed(opcode, 0)
  }

  // Opcode and decoded lanes of eight valid bits: the opcode is zero exactly
  // when no lane is selected, and the fields name the selected lanes in order.
  method Decode(valid: seq<bool>) returns (opcode: nat, lanes: Lanes)
    requires |valid| == 8
    ensures opcode == 0 <==> Selected(valid, 0) == []
    ensures lanes.num == |Selected(valid, 0)|
    ensures forall j :: 0 <= j < lanes.num ==> Field(lanes.idx, j) == Selected(valid, 0)[j]
  {
    opcode := Opcode(valid);
    lanes := ShuffleDecoder(opcode);
    PackedSelects(valid, 0);
    NothingSelected(valid, 0);
    forall j | 0 <= j < lanes.num ensures Field(lanes.idx, j) == Selected(valid, 0)[j] {
      FieldOfPack(Selected(valid, 0), j);
    }
  }
}
