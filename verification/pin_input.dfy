/** The PIN entry boxes (src/components/PinInput/PinInput.tsx): a row of
    `length` one-character boxes showing a controlled `value`, and what each
    keystroke, paste or key press hands to `onChange` and where focus goes.
    An emitted value is the boxes joined after the edit. */
module PinInput {
  import opened Wrappers
  import opened Text
  import opened Seqs

  /** What one input event does: the value passed to `onChange`, if any,
      and the box that receives focus, if focus moves. */
  datatype Reaction = Reaction(emit: Option<string>, focus: Option<nat>)

  datatype Key = Backspace | ArrowLeft | ArrowRight | OtherKey

  /** The `digits` memo: box `i` shows character `i` of the value, or "". */
  function Boxes(value: string, length: nat): (boxes: seq<string>)
    ensures |boxes| == length
    ensures forall i :: 0 <= i < length ==> |boxes[i]| <= 1
    ensures forall i :: 0 <= i < length ==> (boxes[i] == "" <==> i >= |value|)
  {
    seq(length, i requires 0 <= i < length => if i < |value| then [value[i]] else "")
  }

  // ---- joining boxes -------------------------------------------------------

  lemma JoinCons(parts: seq<string>)
    requires |parts| >= 1
    ensures Join(parts, "") == parts[0] + Join(parts[1..], "")
  {
  }

  lemma {:induction false} JoinAppend(a: seq<string>, b: seq<string>)
    ensures Join(a + b, "") == Join(a, "") + Join(b, "")
    decreases |a|
  {
    if |a| == 0 {
      assert a + b == b;
    } else {
      JoinCons(a + b);
      assert (a + b)[1..] == a[1..] + b;
      JoinAppend(a[1..], b);
      JoinCons(a);
    }
  }

  /** Boxes `a..b` joined are the matching piece of the value. */
  lemma {:induction false} JoinBoxesRange(value: string, length: nat, a: nat, b: nat)
    requires a <= b <= length
    ensures Join(Boxes(value, length)[a..b], "") == value[Min(a, |value|)..Min(b, |value|)]
    decreases b - a
  {
    if a < b {
      var bx := Boxes(value, length);
      JoinCons(bx[a..b]);
      assert bx[a..b][1..] == bx[a + 1..b];
      JoinBoxesRange(value, length, a + 1, b);
      if a < |value| {
        assert bx[a] == [value[a]];
        assert value[a..Min(b, |value|)] == [value[a]] + value[a + 1..Min(b, |value|)];
      }
    }
  }

  /** Joining the boxes after replacing box `i` by `x`. */
  lemma JoinUpdatedBoxes(value: string, length: nat, i: nat, x: string)
    requires i < length
    ensures Join(Boxes(value, length)[i := x], "")
         == value[..Min(i, |value|)] + x + value[Min(i + 1, |value|)..Min(length, |value|)]
  {
    var bx := Boxes(value, length);
    assert bx[i := x] == bx[..i] + [x] + bx[i + 1..];
    JoinAppend(bx[..i] + [x], bx[i + 1..]);
    JoinAppend(bx[..i], [x]);
    assert bx[..i] == bx[0..i];
    assert bx[i + 1..] == bx[i + 1..length];
    JoinBoxesRange(value, length, 0, i);
    JoinBoxesRange(value, length, i + 1, length);
  }

  /** One box per character. */
  function Singles(s: string): (cs: seq<string>)
    ensures |cs| == |s|
    ensures forall j :: 0 <= j < |s| ==> cs[j] == [s[j]]
  {
    seq(|s|, j requires 0 <= j < |s| => [s[j]])
  }

  /** One box per character, joined, gives the characters back. */
  lemma {:induction false} JoinChars(s: string)
    ensures Join(Singles(s), "") == s
    decreases |s|
  {
    if |s| > 0 {
      var cs := Singles(s);
      JoinCons(cs);
      assert cs[1..] == Singles(s[1..]);
      JoinChars(s[1..]);
      assert s == [s[0]] + s[1..];
    }
  }

  /** A full PIN survives the round trip through its boxes. */
  lemma FullPinRoundTrip(value: string, length: nat)
    requires |value| >= length
    ensures Join(Boxes(value, length), "") == value[..length]
    ensures Boxes(value[..length], length) == Boxes(value, length)
  {
    JoinBoxesRange(value, length, 0, length);
    assert Boxes(value, length)[0..length] == Boxes(value, length);
  }

  // ---- edits ---------------------------------------------------------------

  /** `setDigitAt`: only the first digit of the typed text is kept; text
      without a digit emits nothing. The digit replaces the character at
      `index` when the value reaches that far; typed into a box past the
      value's end it is appended, since the empty boxes in between join to
      nothing. Typing at the first empty box appends the digit, and typing
      into a full PIN replaces exactly one digit. */
  function SetDigitAt(value: string, length: nat, index: nat, ch: string): (emit: Option<string>)
    requires index < length
    ensures emit.None? <==> Digits(ch) == ""
    ensures emit.Some? ==> |emit.value| <= length
    ensures emit.Some? ==>
              emit.value == value[..Min(index, |value|)] + [Digits(ch)[0]]
                            + value[Min(index + 1, |value|)..Min(length, |value|)]
    ensures emit.Some? && |value| < index ==> emit.value == value + [Digits(ch)[0]]
    ensures emit.Some? && |value| == index ==> emit.value == value + [Digits(ch)[0]]
    ensures emit.Some? && |value| >= length ==>
      emit.value == value[..index] + [Digits(ch)[0]] + value[index + 1..length]
  {
    var clean := Take(Digits(ch), 1);
    if |clean| == 0 then None
    else
      JoinUpdatedBoxes(value, length, index, clean);
      Some(Take(Join(Boxes(value, length)[index := clean], ""), length))
  }

  /** Clearing box `i`: the other boxes joined, so later digits move left;
      clearing a box that is already empty changes nothing. */
  function Clear(value: string, length: nat, i: nat): (r: string)
    requires i < length
    ensures |r| <= length
    ensures |value| >= length ==> r == value[..i] + value[i + 1..length]
    ensures |value| <= i ==> r == value
    ensures |value| <= length && i < |value| ==> r == value[..i] + value[i + 1..]
  {
    JoinUpdatedBoxes(value, length, i, "");
    Join(Boxes(value, length)[i := ""], "")
  }

  /** The paste loop: `ds[k]` written into box `at + k` while boxes remain. */
  function Overwrite(boxes: seq<string>, at: nat, ds: string): (r: seq<string>)
    ensures |r| == |boxes|
    ensures forall j :: 0 <= j < |boxes| ==>
      r[j] == (if at <= j < at + |ds| then [ds[j - at]] else boxes[j])
    decreases |ds|
  {
    if |ds| == 0 || at >= |boxes| then boxes
    else Overwrite(boxes[at := [ds[0]]], at + 1, ds[1..])
  }

  /** After pasting at an empty tail, the boxes are the value, the pasted
      digits that fit, and empty boxes. */
  lemma PasteAtTail(value: string, length: nat, i: nat, ds: string)
    requires |value| <= i < length
    ensures Join(Overwrite(Boxes(value, length), i, ds), "") == value + ds[..Min(|ds|, length - i)]
  {
    var bx := Boxes(value, length);
    var m := Min(|ds|, length - i);
    var d := ds[..m];
    var pre, cs, post := bx[..i], Singles(d), bx[i + m..];
    calc {
      Join(Overwrite(bx, i, ds), "");
      { OverwriteShape(bx, i, ds); }
      Join(pre + cs + post, "");
      { JoinAppend(pre + cs, post); JoinAppend(pre, cs); }
      Join(pre, "") + Join(cs, "") + Join(post, "");
      { JoinChars(d); BoxesBeforeTail(value, length, i); BoxesAfterTail(value, length, i + m); }
      value + d + "";
    }
  }

  lemma BoxesBeforeTail(value: string, length: nat, i: nat)
    requires |value| <= i <= length
    ensures Join(Boxes(value, length)[..i], "") == value
  {
    assert Boxes(value, length)[..i] == Boxes(value, length)[0..i];
    JoinBoxesRange(value, length, 0, i);
    assert value[..Min(i, |value|)] == value;
  }

  lemma BoxesAfterTail(value: string, length: nat, k: nat)
    requires |value| <= k <= length
    ensures Join(Boxes(value, length)[k..], "") == ""
  {
    assert Boxes(value, length)[k..] == Boxes(value, length)[k..length];
    JoinBoxesRange(value, length, k, length);
  }

  /** Overwriting from `at` puts the digits that fit between the untouched
      boxes before and after them. */
  lemma OverwriteShape(boxes: seq<string>, at: nat, ds: string)
    requires at <= |boxes|
    ensures var m := Min(|ds|, |boxes| - at);
      Overwrite(boxes, at, ds) == boxes[..at] + Singles(ds[..m]) + boxes[at + m..]
  {
    var m := Min(|ds|, |boxes| - at);
    var ov, rhs := Overwrite(boxes, at, ds), boxes[..at] + Singles(ds[..m]) + boxes[at + m..];
    assert |ov| == |rhs|;
    forall j | 0 <= j < |ov|
      ensures ov[j] == rhs[j]
    {
      if j < at { assert rhs[j] == boxes[j]; }
      else if j < at + m { assert rhs[j] == Singles(ds[..m])[j - at]; }
      else { assert rhs[j] == boxes[at + m..][j - at - m]; }
    }
  }

  /** Pasting a whole code from the first box replaces the PIN by the code. */
  lemma PasteFillsAll(value: string, length: nat, ds: string)
    requires |ds| == length
    ensures Join(Overwrite(Boxes(value, length), 0, ds), "") == ds
  {
    var ov := Overwrite(Boxes(value, length), 0, ds);
    assert ov == Singles(ds);
    JoinChars(ds);
  }

  /** Boxes before the paste position keep their characters. */
  lemma PasteKeepsPrefix(value: string, length: nat, i: nat, ds: string)
    requires i <= |value| && i < length
    ensures var r := Join(Overwrite(Boxes(value, length), i, ds), ""); |r| >= i && r[..i] == value[..i]
  {
    var bx := Boxes(value, length);
    var ov := Overwrite(bx, i, ds);
    assert ov == ov[..i] + ov[i..];
    assert ov[..i] == bx[..i] == bx[0..i];
    JoinAppend(ov[..i], ov[i..]);
    JoinBoxesRange(value, length, 0, i);
  }

  /** Every join of one-character-or-empty boxes is no longer than the row. */
  lemma {:induction false} JoinShort(parts: seq<string>)
    requires forall i :: 0 <= i < |parts| ==> |parts[i]| <= 1
    ensures |Join(parts, "")| <= |parts|
    decreases |parts|
  {
    if |parts| > 0 {
      JoinCons(parts);
      JoinShort(parts[1..]);
    }
  }

  lemma PasteFacts(value: string, length: nat, i: nat, ds: string)
    requires i < length
    ensures var r := Join(Overwrite(Boxes(value, length), i, ds), "");
      (i <= |value| ==> |r| >= i && r[..i] == value[..i])
      && (|value| <= i ==> r == value + ds[..Min(|ds|, length - i)])
      && (i == 0 && |ds| == length ==> r == ds)
  {
    if i <= |value| { PasteKeepsPrefix(value, length, i, ds); }
    if |value| <= i { PasteAtTail(value, length, i, ds); }
    if i == 0 && |ds| == length { PasteFillsAll(value, length, ds); }
  }

  /** The digits that fit from box `i` are the same whether counted from
      the whole text or from its first `length` digits. */
  lemma TakenDigits(d: string, length: nat, i: nat)
    requires i < length
    ensures var ds := Take(d, length);
      ds[..Min(|ds|, length - i)] == d[..Min(|d|, length - i)]
      && (|d| >= length ==> ds == d[..length])
  {
  }

  /** The paste branch of `handleChange`: the text's digits, at most
      `length` of them, written from box `i` on; focus moves to the box
      after the last pasted digit, or the last box. */
  function Paste(value: string, length: nat, i: nat, v: string): (r: Reaction)
    requires i < length
    ensures r.emit.None? <==> Digits(v) == ""
    ensures r.emit.None? <==> r.focus.None?
    ensures r.emit.Some? ==> |r.emit.value| <= length
    ensures r.focus.Some? ==> r.focus.value == Min(i + Min(|Digits(v)|, length), length - 1)
    ensures r.emit.Some? && i <= |value| ==> |r.emit.value| >= i && r.emit.value[..i] == value[..i]
    ensures r.emit.Some? && |value| <= i ==>
      r.emit.value == value + Digits(v)[..Min(|Digits(v)|, length - i)]
    ensures i == 0 && |Digits(v)| >= length ==> r.emit == Some(Digits(v)[..length])
  {
    var ds := Take(Digits(v), length);
    if |ds| == 0 then Reaction(None, None)
    else
      var arr := Overwrite(Boxes(value, length), i, ds);
      JoinShort(arr);
      PasteFacts(value, length, i, ds);
      TakenDigits(Digits(v), length, i);
      Reaction(Some(Join(arr, "")), Some(Min(i + |ds|, length - 1)))
  }

  /** `handleChange` on box `i` with the box's new text `v`. */
  function HandleChange(value: string, length: nat, i: nat, v: string): (r: Reaction)
    requires i < length
    ensures r.emit.Some? ==> |r.emit.value| <= length
    ensures |v| > 1 ==> r == Paste(value, length, i, v)
    ensures v == "" ==> r == Reaction(Some(Clear(value, length, i)), None)
    ensures |v| == 1 ==> r.emit == SetDigitAt(value, length, i, v)
    ensures |v| == 1 ==> (r.focus.Some? <==> i < length - 1)
    ensures |v| == 1 && r.focus.Some? ==> r.focus.value == i + 1
  {
    if |v| > 1 then Paste(value, length, i, v)
    else if v == "" then Reaction(Some(Clear(value, length, i)), None)
    else Reaction(SetDigitAt(value, length, i, v), if i < length - 1 then Some(i + 1) else None)
  }

  /** `handleKeyDown`: the reaction and whether the default is prevented.
      Arrow keys only move focus; Backspace clears box `i` when it is
      filled and otherwise steps back and clears box `i - 1`. */
  function KeyDown(value: string, length: nat, i: nat, key: Key): (out: (Reaction, bool))
    requires i < length
    ensures key != Backspace ==> out.0.emit.None?
    ensures key == Backspace && i < |value| ==> out.0 == Reaction(Some(Clear(value, length, i)), None)
    ensures key == Backspace && |value| <= i && i > 0 ==>
      out.0 == Reaction(Some(Clear(value, length, i - 1)), Some(i - 1))
    ensures key == Backspace && |value| <= i && i == 0 ==> out.0 == Reaction(None, None)
    ensures out.1 <==> key == Backspace || (key == ArrowLeft && i > 0) || (key == ArrowRight && i < length - 1)
    ensures key == ArrowLeft ==> out.0.focus == (if i > 0 then Some(i - 1) else None)
    ensures key == ArrowRight ==> out.0.focus == (if i < length - 1 then Some(i + 1) else None)
    ensures key == OtherKey ==> out.0 == Reaction(None, None)
  {
    var boxes := Boxes(value, length);
    match key
    case Backspace =>
      if boxes[i] != "" then (Reaction(Some(Clear(value, length, i)), None), true)
      else if i > 0 then (Reaction(Some(Clear(value, length, i - 1)), Some(i - 1)), true)
      else (Reaction(None, None), true)
    case ArrowLeft => if i > 0 then (Reaction(None, Some(i - 1)), true) else (Reaction(None, None), false)
    case ArrowRight =>
      if i < length - 1 then (Reaction(None, Some(i + 1)), true) else (Reaction(None, None), false)
    case OtherKey => (Reaction(None, None), false)
  }

  /** Typing a digit at the first empty box and pressing Backspace in the box
      that then has focus gives back the value typed over. */
  lemma TypeThenBackspace(value: string, length: nat, ch: string)
    requires |value| < length
    requires |ch| == 1 && Digits(ch) != ""
    ensures var typed := HandleChange(value, length, |value|, ch);
      typed.emit == Some(value + [Digits(ch)[0]])
      && KeyDown(typed.emit.value, length, typed.focus.GetOr(|value|), Backspace).0.emit == Some(value)
  {
    var typed := HandleChange(value, length, |value|, ch);
    var t := typed.emit.value;
    assert t == value + [Digits(ch)[0]];
    assert t[..|value|] + t[|value| + 1..] == value;
  }
}
