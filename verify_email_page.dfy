/** The email-verification page: six one-character slots, the focused slot, and the submit guard. */
module VerifyEmailPage {
  import opened Common
  import opened Encoding

  const Slots := 6

  /** What one slot may hold once the input guard has run: nothing or one digit. */
  predicate SlotOk(slot: string)
  {
    slot == "" || (|slot| == 1 && IsDigit(slot[0]))
  }

  /** The input guard: `/^\d$/` or the empty string. */
  predicate Accepted(value: string)
  {
    value == "" || (|value| == 1 && IsDigit(value[0]))
  }

  /** `code.join("")`. */
  function Join(code: seq<string>): string
  {
    if code == [] then "" else code[0] + Join(code[1..])
  }

  /** The slots after a paste: the first six characters, one per slot, then empty slots. */
  function PastedSlots(value: string): (r: seq<string>)
    ensures |r| == Slots
    ensures forall i :: 0 <= i < Slots ==> r[i] == (if i < |value| then [value[i]] else "")
  {
    seq(Slots, i requires 0 <= i < Slots => if i < |value| then [value[i]] else "")
  }

  /** `code.some(digit => digit === "")`: the submit button's disabled state. */
  predicate SubmitDisabled(code: seq<string>)
  {
    exists i :: 0 <= i < |code| && code[i] == ""
  }

  class CodeEntry {
    var code: seq<string>
    /** The index of the focused slot. */
    var focused: int

    ghost predicate Valid()
      reads this
    {
      |code| == Slots && 0 <= focused < Slots && forall i :: 0 <= i < Slots ==> SlotOk(code[i])
    }

    constructor ()
      ensures Valid() && code == ["", "", "", "", "", ""] && focused == 0
    {
      code := ["", "", "", "", "", ""];
      focused := 0;
    }

    /** A change in slot `index`: a value longer than one character is spread over all six slots and
        focus goes to the last; otherwise the value goes into that slot alone and focus moves on after
        a character, unless this is the last slot. */
    method HandleChange(index: int, value: string)
      requires 0 <= index < Slots && |code| == Slots
      modifies this
      ensures |code| == Slots
      ensures |value| > 1 ==> code == PastedSlots(value) && focused == Slots - 1
      ensures |value| <= 1 ==> code == old(code)[index := value]
      ensures |value| <= 1 ==> focused == if value != "" && index < Slots - 1 then index + 1 else old(focused)
    {
      var newCode := code;
      if |value| > 1 {
        var pasted := if |value| > Slots then value[..Slots] else value;
        var i := 0;
        while i < Slots
          invariant 0 <= i <= Slots && |newCode| == Slots
          invariant forall k :: 0 <= k < i ==> newCode[k] == PastedSlots(value)[k]
        {
          newCode := newCode[i := if i < |pasted| then [pasted[i]] else ""];
          i := i + 1;
        }
        code := newCode;
        focused := Slots - 1;
      } else {
        newCode := newCode[index := value];
        code := newCode;
        if value != "" && index < Slots - 1 {
          focused := index + 1;
        }
      }
    }

    /** The input's change handler: only a single digit or an empty value reaches `HandleChange`. */
    method OnChange(index: int, value: string)
      requires Valid() && 0 <= index < Slots
      modifies this
      ensures Valid()
      ensures Accepted(value) ==> code == old(code)[index := value]
      ensures !Accepted(value) ==> code == old(code) && focused == old(focused)
    {
      if Accepted(value) {
        HandleChange(index, value);
        assert forall i :: 0 <= i < Slots ==> SlotOk(code[i]) by {
          forall i | 0 <= i < Slots ensures SlotOk(code[i]) {
            if i != index {
              assert code[i] == old(code)[i];
            }
          }
        }
      }
    }

    /** Backspace over an empty slot moves focus one slot back, unless this is the first. */
    method HandleKeyDown(key: string, index: int)
      requires 0 <= index < |code|
      modifies this
      ensures code == old(code)
      ensures focused == if key == "Backspace" && code[index] == "" && index > 0 then index - 1 else old(focused)
    {
      if key == "Backspace" && code[index] == "" {
        if index > 0 {
          focused := index - 1;
        }
      }
    }

    /** The code sent for verification, if the joined slots are six characters long. */
    method HandleSubmit() returns (sent: Option<string>)
      requires Valid()
      ensures sent.Some? <==> !SubmitDisabled(code)
      ensures sent.Some? ==> sent.value == Join(code) && |sent.value| == Slots && AllDigits(sent.value)
    {
      var fullCode := Join(code);
      JoinOfSlots(code);
      if |fullCode| == Slots {
        sent := Some(fullCode);
      } else {
        sent := None;
      }
    }
  }

  /** Over slots that hold nothing or a digit, the joined code is all digits and has one character
      per slot exactly when no slot is empty. */
  lemma {:induction false} JoinOfSlots(code: seq<string>)
    requires forall i :: 0 <= i < |code| ==> SlotOk(code[i])
    ensures AllDigits(Join(code))
    ensures |Join(code)| <= |code|
    ensures |Join(code)| == |code| <==> !SubmitDisabled(code)
  {
    if code != [] {
      JoinOfSlots(code[1..]);
      if code[0] != "" {
        forall i | 0 <= i < |code[1..]| && code[1..][i] == "" ensures SubmitDisabled(code) {
          assert code[i + 1] == "";
        }
      }
      if SubmitDisabled(code) {
        var i :| 0 <= i < |code| && code[i] == "";
        if i > 0 {
          assert code[1..][i - 1] == "";
        }
      }
    }
  }

  /** Pasting six characters or more fills the slots with the first six, in order. */
  lemma PasteJoinsBack(value: string)
    requires |value| >= Slots
    ensures Join(PastedSlots(value)) == value[..Slots]
  {
    var r := PastedSlots(value);
    assert r == [[value[0]], [value[1]], [value[2]], [value[3]], [value[4]], [value[5]]];
    assert Join(r[5..]) == [value[5]];
    assert Join(r[4..]) == [value[4], value[5]];
    assert Join(r[3..]) == [value[3], value[4], value[5]];
    assert Join(r[2..]) == [value[2], value[3], value[4], value[5]];
    assert Join(r[1..]) == [value[1], value[2], value[3], value[4], value[5]];
  }

  /** The input guard never forwards a paste: a value longer than one character is refused. */
  lemma GuardRefusesPaste(value: string)
    requires |value| > 1
    ensures !Accepted(value)
  {
  }
}
