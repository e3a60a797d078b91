/** The one-time-code entry form: one text slot per digit, typing and pasting, Backspace,
    and the code sent on submit. */
module OtpVerification {
  import opened Wrappers

  const Slots := 6

  predicate IsDigit(c: char) {
    '0' <= c <= '9'
  }

  /** `value.replace(/[^0-9]/g, "")`: the digits of `s`, in order. */
  function KeepDigits(s: string): (r: string)
    ensures |r| <= |s|
    ensures forall i :: 0 <= i < |r| ==> IsDigit(r[i])
    ensures multiset(r) <= multiset(s)
  {
    if |s| == 0 then ""
    else
      assert s == [s[0]] + s[1..];
      (if IsDigit(s[0]) then [s[0]] else "") + KeepDigits(s[1..])
  }

  /** Text that is all digits passes through unchanged, and filtering twice is filtering once. */
  lemma {:induction false} KeepDigitsOfDigits(s: string)
    requires forall i :: 0 <= i < |s| ==> IsDigit(s[i])
    ensures KeepDigits(s) == s
  {
    if |s| > 0 {
      KeepDigitsOfDigits(s[1..]);
    }
  }

  lemma KeepDigitsIdempotent(s: string)
    ensures KeepDigits(KeepDigits(s)) == KeepDigits(s)
  {
    KeepDigitsOfDigits(KeepDigits(s));
  }

  /** A digit is kept: the filter drops only non-digits. */
  lemma {:induction false} KeepDigitsKeepsCount(s: string, c: char)
    requires IsDigit(c)
    ensures multiset(KeepDigits(s))[c] == multiset(s)[c]
  {
    if |s| > 0 {
      assert s == [s[0]] + s[1..];
      KeepDigitsKeepsCount(s[1..], c);
    }
  }

  /** `value.split("").slice(0, 6)`: one slot per character, at most six. */
  function Split(value: string): (slots: seq<string>)
    ensures |slots| == if |value| < Slots then |value| else Slots
    ensures forall i :: 0 <= i < |slots| ==> slots[i] == [value[i]]
  {
    var n := if |value| < Slots then |value| else Slots;
    seq(n, i requires 0 <= i < n => [value[i]])
  }

  /** `data.join("")`. */
  function Join(slots: seq<string>): string {
    if |slots| == 0 then "" else Join(slots[..|slots| - 1]) + slots[|slots| - 1]
  }

  /** A slot holds nothing or a single digit. */
  predicate Slot(s: string) {
    s == "" || (|s| == 1 && IsDigit(s[0]))
  }

  /** `data.every((el) => el)`: every slot is filled. */
  predicate Filled(slots: seq<string>) {
    forall i :: 0 <= i < |slots| ==> slots[i] != ""
  }

  /** Filled slots join to a code of one digit per slot, and the code gives the slots back. */
  lemma {:induction false} JoinFilled(slots: seq<string>)
    requires forall i :: 0 <= i < |slots| ==> Slot(slots[i])
    requires Filled(slots)
    ensures |Join(slots)| == |slots|
    ensures forall i :: 0 <= i < |slots| ==> IsDigit(Join(slots)[i]) && slots[i] == [Join(slots)[i]]
  {
    if |slots| > 0 {
      var prefix := slots[..|slots| - 1];
      JoinFilled(prefix);
      var last := slots[|slots| - 1];
      assert |last| == 1;
      assert Join(slots) == Join(prefix) + last;
      forall i | 0 <= i < |slots| ensures IsDigit(Join(slots)[i]) && slots[i] == [Join(slots)[i]] {
        if i < |slots| - 1 {
          assert Join(slots)[i] == Join(prefix)[i];
          assert slots[i] == prefix[i];
        }
      }
    }
  }

  /** The joined code has at most one digit per slot, and fewer when a slot is empty: what
      the resend button or Enter sends from a form that is not filled. */
  lemma {:induction false} JoinLength(slots: seq<string>)
    requires forall i :: 0 <= i < |slots| ==> Slot(slots[i])
    ensures |Join(slots)| <= |slots|
    ensures !Filled(slots) ==> |Join(slots)| < |slots|
  {
    if |slots| > 0 {
      var prefix := slots[..|slots| - 1];
      JoinLength(prefix);
      if !Filled(slots) {
        var i :| 0 <= i < |slots| && slots[i] == "";
        if i < |slots| - 1 {
          assert prefix[i] == "";
        }
      }
    }
  }

  /** The form's state: the slots, whether a verification request is in flight, and whether
      the resend button is locked after a resend. */
  class OtpForm {
    var data: seq<string>
    var submitting: bool
    var resending: bool

    /** There are between two and six slots (a paste of two to five digits leaves that many),
        each empty or one digit. */
    ghost predicate Valid()
      reads this
    {
      2 <= |data| <= Slots && forall i :: 0 <= i < |data| ==> Slot(data[i])
    }

    /** `useState(["", "", "", "", "", ""])`. */
    constructor()
      ensures data == ["", "", "", "", "", ""] && !submitting && !resending
      ensures Valid()
    {
      data := ["", "", "", "", "", ""];
      submitting := false;
      resending := false;
    }

    /** `validValue`: the submit button is enabled when every slot is filled. */
    predicate ValidValue()
      reads this
    {
      Filled(data)
    }

    /** The `onChange` of slot `index` with the input's new text `typed`: the digits of more than
        one character replace the whole form with up to six slots; otherwise the slot is set to
        the one digit, or cleared. */
    method OnChange(index: nat, typed: string)
      requires Valid() && index < |data|
      modifies this
      ensures Valid()
      ensures submitting == old(submitting)
      ensures var value := KeepDigits(typed);
              if |value| > 1 then data == Split(value)
              else data == old(data)[index := value]
    {
      var value := KeepDigits(typed);
      if |value| > 1 {
        data := Split(value);
        return;
      }
      var newData := data;
      newData := newData[index := value];
      data := newData;
    }

    /** Backspace in slot `index`: an empty slot after the first clears the slot before it,
        otherwise the slot itself is cleared. */
    method OnBackspace(index: nat)
      requires Valid() && index < |data|
      modifies this
      ensures Valid()
      ensures submitting == old(submitting)
      ensures |data| == |old(data)|
      ensures old(data)[index] == "" && index > 0 ==> data == old(data)[index - 1 := ""]
      ensures !(old(data)[index] == "" && index > 0) ==> data == old(data)[index := ""]
    {
      var newData := data;
      if newData[index] == "" && index > 0 {
        newData := newData[index - 1 := ""];
      } else {
        newData := newData[index := ""];
      }
      data := newData;
    }

    /** `handleSubmit`, the form's `onSubmit`: its only guard is a request in flight. It sends
        the joined slots, whatever they hold, resets them when the server answers with success
        (`accepted`), and the form is ready again afterwards. */
    method HandleSubmit(accepted: bool) returns (sent: Option<string>)
      requires Valid()
      modifies this
      ensures Valid()
      ensures resending == old(resending)
      ensures old(submitting) ==> sent.None? && data == old(data) && submitting
      ensures !old(submitting) ==>
                && sent == Some(Join(old(data)))
                && !submitting
                && data == (if accepted then ["", "", "", "", "", ""] else old(data))
    {
      if submitting {
        return None;
      }
      submitting := true;
      sent := Some(Join(data));
      if accepted {
        data := ["", "", "", "", "", ""];
      }
      submitting := false;
    }

    /** Pressing "Xác minh OTP": the button is disabled unless every slot is filled
        (`validValue`) and no request is in flight, so nothing is sent then; otherwise it
        submits the form. */
    method Submit(accepted: bool) returns (sent: Option<string>)
      requires Valid()
      modifies this
      ensures Valid()
      ensures resending == old(resending)
      ensures sent.Some? ==> Filled(old(data)) && !old(submitting)
      ensures old(submitting) || !Filled(old(data)) ==>
                sent.None? && data == old(data) && submitting == old(submitting)
      ensures !old(submitting) && Filled(old(data)) ==>
                && sent == Some(Join(old(data)))
                && !submitting
                && data == (if accepted then ["", "", "", "", "", ""] else old(data))
    {
      if submitting || !ValidValue() {
        return None;
      }
      sent := HandleSubmit(accepted);
    }

    /** Pressing "Gửi lại mã OTP", or Enter in a slot. The button has no `type`, so inside the
        form it is a submit button, and as the first one it is the form's default button, which
        Enter presses. While it is locked after a resend nothing happens. Otherwise it asks for
        a new code (`resent`), locks itself, and also submits the form, sending the slots even
        when some are empty. */
    method Resend(accepted: bool) returns (resent: bool, sent: Option<string>)
      requires Valid()
      modifies this
      ensures Valid()
      ensures old(resending) ==>
                !resent && sent.None? && data == old(data) && submitting == old(submitting) && resending
      ensures !old(resending) ==> resent && resending
      ensures !old(resending) && !old(submitting) ==>
                && sent == Some(Join(old(data)))
                && !submitting
                && data == (if accepted then ["", "", "", "", "", ""] else old(data))
      ensures !old(resending) && old(submitting) ==> sent.None? && data == old(data) && submitting
    {
      if resending {
        return false, None;
      }
      resending := true;
      resent := true;
      sent := HandleSubmit(accepted);
    }

    /** The 30-second timer after a resend unlocks the resend button. */
    method ResendTimerElapsed()
      requires Valid()
      modifies this
      ensures Valid()
      ensures !resending && data == old(data) && submitting == old(submitting)
    {
      resending := false;
    }
  }

  /** Pasting six or more digits fills every slot with them, in order. */
  lemma PasteFillsForm(typed: string)
    requires |KeepDigits(typed)| >= Slots
    ensures var slots := Split(KeepDigits(typed));
            |slots| == Slots && Filled(slots) && Join(slots) == KeepDigits(typed)[..Slots]
  {
    var value := KeepDigits(typed);
    var slots := Split(value);
    forall i | 0 <= i < |slots| ensures Slot(slots[i]) {
    }
    JoinFilled(slots);
  }

  /** A paste of two to five digits shrinks the form to that many slots, all filled: the
      submit button is enabled and the code sent is shorter than six digits. */
  lemma ShortPasteSubmitsShortCode(typed: string)
    requires 1 < |KeepDigits(typed)| < Slots
    ensures var slots := Split(KeepDigits(typed));
            |slots| < Slots && Filled(slots) && |Join(slots)| == |slots|
  {
    var slots := Split(KeepDigits(typed));
    forall i | 0 <= i < |slots| ensures Slot(slots[i]) {
    }
    JoinFilled(slots);
  }

  /** Typing one digit into every slot of the fresh form, in order, enables submit and sends
      exactly those digits. */
  lemma TypedCodeIsSent(slots: seq<string>)
    requires |slots| == Slots && forall i :: 0 <= i < Slots ==> Slot(slots[i]) && slots[i] != ""
    ensures Filled(slots)
    ensures |Join(slots)| == Slots && forall i :: 0 <= i < Slots ==> [Join(slots)[i]] == slots[i]
  {
    JoinFilled(slots);
  }
}
