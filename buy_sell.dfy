// The dashboard's buy and sell number pads
// (src/components/Dashboard/BuySellSection.tsx): each pad edits its own amount
// buffer one key press at a time.
module BuySell {
  import opened Text

  /** `handleNumberPad`'s effect on a buffer: `C` clears, `B` drops the last character, any other key is appended. */
  function PadStep(buffer: string, key: string): (r: string)
    ensures key == "C" ==> r == ""
    ensures key == "B" && buffer != "" ==> r == buffer[..|buffer| - 1]
    ensures key == "B" && buffer == "" ==> r == ""
    ensures key != "C" && key != "B" ==> r == buffer + key && |r| == |buffer| + |key|
  {
    if key == "C" then ""
    else if key == "B" then (if buffer == "" then "" else buffer[..|buffer| - 1])
    else buffer + key
  }

  /** The twelve keys on each pad. */
  const PadKeys: seq<string> := ["1", "2", "3", "4", "5", "6", "7", "8", "9", "C", "0", "B"]

  /** Pressing the keys one after another, first key first. */
  function PressAll(buffer: string, keys: seq<string>): string
    decreases |keys|
  {
    if keys == [] then buffer else PressAll(PadStep(buffer, keys[0]), keys[1..])
  }

  /** A pad key keeps a buffer of digits a buffer of digits. */
  lemma PadKeyKeepsDigits(buffer: string, key: string)
    requires AllDigits(buffer) && key in PadKeys
    ensures AllDigits(PadStep(buffer, key))
  {
  }

  /** Every buffer the pad can reach from the empty buffer holds digits only. */
  lemma {:induction false} ReachableBuffersAreDigits(buffer: string, keys: seq<string>)
    requires AllDigits(buffer)
    requires forall i :: 0 <= i < |keys| ==> keys[i] in PadKeys
    ensures AllDigits(PressAll(buffer, keys))
    decreases |keys|
  {
    if keys != [] {
      PadKeyKeepsDigits(buffer, keys[0]);
      ReachableBuffersAreDigits(PadStep(buffer, keys[0]), keys[1..]);
    }
  }

  /** A digit key followed by `B` undoes the digit. */
  lemma BackspaceUndoesDigit(buffer: string, key: string)
    requires key in PadKeys && key != "C" && key != "B"
    ensures PadStep(PadStep(buffer, key), "B") == buffer
  {
  }

  /** Which pad a key was pressed on. */
  datatype Pad = BuyPad | SellPad

  /** The two amount buffers. */
  class NumberPads {
    var buyAmount: string
    var sellAmount: string

    constructor()
      ensures buyAmount == "" && sellAmount == ""
    {
      buyAmount := "";
      sellAmount := "";
    }

    /** A key press on one pad changes that pad's buffer and leaves the other alone. */
    method HandleNumberPad(key: string, pad: Pad)
      modifies this
      ensures pad == BuyPad ==> buyAmount == PadStep(old(buyAmount), key) && sellAmount == old(sellAmount)
      ensures pad == SellPad ==> sellAmount == PadStep(old(sellAmount), key) && buyAmount == old(buyAmount)
    {
      if key == "C" {
        if pad == BuyPad { buyAmount := ""; } else { sellAmount := ""; }
      } else if key == "B" {
        if pad == BuyPad {
          if buyAmount != "" { buyAmount := buyAmount[..|buyAmount| - 1]; }
        } else {
          if sellAmount != "" { sellAmount := sellAmount[..|sellAmount| - 1]; }
        }
      } else {
        if pad == BuyPad { buyAmount := buyAmount + key; } else { sellAmount := sellAmount + key; }
      }
    }
  }
}
