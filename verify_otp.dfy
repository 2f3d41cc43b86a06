/**
 * The six one-digit boxes of the OTP step: typing into one box, pasting a
 * whole code, submitting the joined code, and clearing the boxes when the
 * server refuses it.
 */
module VerifyOtp {
  import opened Wrappers
  import opened Text
  import opened Patterns
  import opened Forms

  const IncompleteMessage := "Please enter the complete 6-digit OTP."

  /** Each box holds nothing or one ASCII digit. */
  predicate SlotsOk(slots: seq<string>) {
    |slots| == 6 && forall i | 0 <= i < |slots| :: |slots[i]| <= 1 && OnlyDigits(slots[i])
  }

  /** The boxes filled one character each from a text, `text.split("")`. */
  function Chars(text: string): (r: seq<string>)
    ensures |r| == |text|
    ensures forall i | 0 <= i < |r| :: r[i] == [text[i]]
  {
    seq(|text|, i requires 0 <= i < |text| => [text[i]])
  }

  /** `otp.join("")` is as long as the boxes together, so it has six
      characters exactly when every box is filled, and it is all digits. */
  lemma {:induction false} JoinedSlots(slots: seq<string>)
    requires forall i | 0 <= i < |slots| :: |slots[i]| <= 1 && OnlyDigits(slots[i])
    ensures |Join(slots, "")| <= |slots|
    ensures |Join(slots, "")| == |slots| <==> forall i | 0 <= i < |slots| :: |slots[i]| == 1
    ensures AllDigits(Join(slots, ""))
  {
    if |slots| > 1 {
      var rest := slots[1..];
      JoinedSlots(rest);
      var j := Join(rest, "");
      assert Join(slots, "") == slots[0] + j;
      forall k | 0 <= k < |slots[0] + j| ensures IsDigit((slots[0] + j)[k]) {
        if k >= |slots[0]| {
          assert (slots[0] + j)[k] == j[k - |slots[0]|];
        }
      }
      if |Join(slots, "")| == |slots| {
        forall i | 0 <= i < |slots| ensures |slots[i]| == 1 {
          if i > 0 {
            assert slots[i] == rest[i - 1];
          }
        }
      }
      if forall i | 0 <= i < |slots| :: |slots[i]| == 1 {
        assert forall i | 0 <= i < |rest| :: |rest[i]| == 1 by {
          forall i | 0 <= i < |rest| ensures |rest[i]| == 1 {
            assert rest[i] == slots[i + 1];
          }
        }
      }
    }
  }

  /** Joining the boxes a paste filled gives the pasted text back. */
  lemma {:induction false} JoinChars(text: string)
    ensures Join(Chars(text), "") == text
  {
    if |text| > 1 {
      JoinChars(text[1..]);
      assert Chars(text)[1..] == Chars(text[1..]);
      assert [text[0]] + text[1..] == text;
    } else if |text| == 1 {
      assert [text[0]] == text;
    }
  }

  class OtpEntry {
    var otp: seq<string>
    var error: Option<string>

    predicate Valid()
      reads this
    {
      SlotsOk(otp)
    }

    constructor ()
      ensures Valid() && otp == ["", "", "", "", "", ""] && error.None?
    {
      otp := ["", "", "", "", "", ""];
      error := None;
    }

    /** `handleOtpChange`: a value longer than one character or holding a
        non-digit is ignored; otherwise it becomes the box's content. */
    method HandleOtpChange(index: nat, value: string)
      requires Valid() && index < 6
      modifies this`otp
      ensures Valid()
      ensures otp == if |value| > 1 || !OnlyDigits(value) then old(otp) else old(otp)[index := value]
    {
      if |value| > 1 {
        return;
      }
      if !OnlyDigits(value) {
        return;
      }
      otp := otp[index := value];
    }

    /** `handlePaste`: the first six characters of the clipboard fill the
        boxes when they are six digits; anything else is ignored. */
    method HandlePaste(text: string)
      requires Valid()
      modifies this`otp
      ensures Valid()
      ensures var pasted := if |text| <= 6 then text else text[..6];
        otp == if SixDigits(pasted) then Chars(pasted) else old(otp)
    {
      var pasted := if |text| <= 6 then text else text[..6];
      if SixDigits(pasted) {
        otp := Chars(pasted);
      }
    }

    /** `handleSubmit`: the banner is cleared; an incomplete code is
        refused with a banner, a complete one is sent. */
    method HandleSubmit() returns (s: Submission<string>)
      requires Valid()
      modifies this`error
      ensures s.Sent? <==> forall i | 0 <= i < 6 :: otp[i] != ""
      ensures s.Sent? ==> SixDigits(s.payload) && s.payload == Join(otp, "") && error.None?
      ensures s.Rejected? ==> s.message == IncompleteMessage && error == Some(IncompleteMessage)
    {
      error := None;
      JoinedSlots(otp);
      var code := Join(otp, "");
      if |code| != 6 {
        var i :| 0 <= i < 6 && |otp[i]| != 1;
        error := Some(IncompleteMessage);
        assert otp[i] == "";
        return Rejected(IncompleteMessage);
      }
      s := Sent(code);
    }

    /** A refused code shows the server's message and empties every box. */
    method Refused(message: string)
      modifies this`otp, this`error
      ensures Valid() && otp == ["", "", "", "", "", ""] && error == Some(message)
    {
      error := Some(message);
      otp := ["", "", "", "", "", ""];
    }
  }

  /** Pasting six digits and submitting sends exactly the pasted code. */
  method PasteThenSubmit(entry: OtpEntry, code: string) returns (s: Submission<string>)
    requires entry.Valid() && SixDigits(code)
    modifies entry
    ensures s == Sent(code)
  {
    entry.HandlePaste(code);
    JoinChars(code);
    s := entry.HandleSubmit();
  }
}
