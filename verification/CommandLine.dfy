/** Adding boot hints to the kernel command line. */
module CommandLine {
  predicate OccursAt(s: string, i: int, sub: string) {
    0 <= i <= |s| - |sub| && s[i..i + |sub|] == sub
  }

  predicate Contains(s: string, sub: string) {
    exists i :: 0 <= i <= |s| - |sub| && OccursAt(s, i, sub)
  }

  function AddHint(cmdline: string, hint: string): string {
    if Contains(cmdline, hint) then cmdline
    else (if cmdline == "" then "" else cmdline + " ") + hint
  }

  function AddHints(cmdline: string, hints: seq<string>): string
    decreases |hints|
  {
    if hints == [] then cmdline else AddHints(AddHint(cmdline, hints[0]), hints[1..])
  }

  method InsertHints(cmdline: string, hints: seq<string>) returns (out: string)
    ensures out == AddHints(cmdline, hints)
  {
    out := cmdline;
    for i := 0 to |hints|
      invariant AddHints(cmdline, hints) == AddHints(out, hints[i..])
    {
      assert hints[i..][1..] == hints[i + 1..];
      if !Contains(out, hints[i]) {
        if out != "" {
          out := out + " ";
        }
        out := out + hints[i];
      }
    }
  }

  // ----- What insertion guarantees

  lemma ContainsStays(s: string, t: string, sub: string)
    requires Contains(s, sub)
    ensures Contains(s + t, sub)
  {
    var i :| 0 <= i <= |s| - |sub| && OccursAt(s, i, sub);
    assert (s + t)[i..i + |sub|] == sub;
    assert OccursAt(s + t, i, sub);
  }

  lemma HintIsIn(cmdline: string, hint: string)
    ensures Contains(AddHint(cmdline, hint), hint)
    ensures cmdline <= AddHint(cmdline, hint)
  {
    if !Contains(cmdline, hint) {
      var before := if cmdline == "" then "" else cmdline + " ";
      assert OccursAt(before + hint, |before|, hint);
    }
  }

  /** Every hint ends up in the command line, and what was there before stays in front. */
  lemma {:induction false} HintsAreIn(cmdline: string, hints: seq<string>)
    ensures cmdline <= AddHints(cmdline, hints)
    ensures forall i :: 0 <= i < |hints| ==> Contains(AddHints(cmdline, hints), hints[i])
    decreases |hints|
  {
    if hints != [] {
      var next, out := AddHint(cmdline, hints[0]), AddHints(cmdline, hints);
      HintIsIn(cmdline, hints[0]);
      HintsAreIn(next, hints[1..]);
      ExtensionContains(next, out, hints[0]);
      assert forall i :: 0 < i < |hints| ==> hints[i] == hints[1..][i - 1];
    }
  }

  lemma ExtensionContains(s: string, t: string, sub: string)
    requires Contains(s, sub) && s <= t
    ensures Contains(t, sub)
  {
    assert t == s + t[|s|..];
    ContainsStays(s, t[|s|..], sub);
  }

  lemma {:induction false} NothingToAdd(cmdline: string, hints: seq<string>)
    ensures (forall i :: 0 <= i < |hints| ==> Contains(cmdline, hints[i])) ==> AddHints(cmdline, hints) == cmdline
  {
    if hints != [] && forall i :: 0 <= i < |hints| ==> Contains(cmdline, hints[i]) {
      assert Contains(cmdline, hints[0]);
      NothingToAdd(cmdline, hints[1..]);
    }
  }

  /** Nothing is added exactly when every hint already occurs somewhere in the command line. */
  lemma UnchangedIff(cmdline: string, hints: seq<string>)
    ensures AddHints(cmdline, hints) == cmdline <==> forall i :: 0 <= i < |hints| ==> Contains(cmdline, hints[i])
  {
    HintsAreIn(cmdline, hints);
    NothingToAdd(cmdline, hints);
  }

  // ----- Which hints end up as options

  /** `h` stands at `i` as a word of its own, with a space or an end of the line on either side. */
  predicate OptionAt(s: string, i: int, h: string) {
    && OccursAt(s, i, h)
    && (i == 0 || s[i - 1] == ' ')
    && (i + |h| == |s| || s[i + |h|] == ' ')
  }

  predicate IsOption(s: string, h: string) {
    exists i :: 0 <= i <= |s| - |h| && OptionAt(s, i, h)
  }

  /** A hint that was to be added is an option of the new line exactly when it was one already or its
      text did not occur. */
  lemma OptionIffNotShadowed(cmdline: string, hint: string)
    ensures IsOption(AddHint(cmdline, hint), hint) <==> IsOption(cmdline, hint) || !Contains(cmdline, hint)
  {
    if !Contains(cmdline, hint) {
      var before := if cmdline == "" then "" else cmdline + " ";
      assert OptionAt(before + hint, |before|, hint);
    }
  }

  predicate SpaceFree(s: string) { ' ' !in s }

  /** A word cannot straddle the space between two texts. */
  lemma OccursInEither(a: string, b: string, h: string, i: int)
    requires SpaceFree(h) && OccursAt(a + " " + b, i, h)
    ensures (i + |h| <= |a| && OccursAt(a, i, h)) || (i > |a| && OccursAt(b, i - |a| - 1, h))
  {
    var s := a + " " + b;
    if i <= |a| < i + |h| {
      StraddlesASpace(a, b, h, i);
    } else if i + |h| <= |a| {
      assert a[i..i + |h|] == s[i..i + |h|];
    } else {
      assert b[i - |a| - 1..i - |a| - 1 + |h|] == s[i..i + |h|];
    }
  }

  lemma StraddlesASpace(a: string, b: string, h: string, i: int)
    requires OccursAt(a + " " + b, i, h) && i <= |a| < i + |h|
    ensures ' ' in h
  {
    var s := a + " " + b;
    assert h[|a| - i] == s[i..i + |h|][|a| - i] == s[|a|] == ' ';
  }

  lemma OccursInFront(a: string, b: string, h: string, i: int)
    requires OccursAt(a, i, h)
    ensures OccursAt(a + " " + b, i, h)
    ensures OptionAt(a, i, h) <==> OptionAt(a + " " + b, i, h)
  {
    var s := a + " " + b;
    assert s[i..i + |h|] == a[i..i + |h|];
    assert s[|a|] == ' ';
  }

  /** Adding another hint neither makes nor breaks an occurrence of `h`. */
  lemma OtherHintsKeep(cmdline: string, other: string, h: string)
    requires SpaceFree(h) && h != "" && !Contains(other, h)
    ensures Contains(AddHint(cmdline, other), h) <==> Contains(cmdline, h)
    ensures IsOption(AddHint(cmdline, other), h) <==> IsOption(cmdline, h)
  {
    var out := AddHint(cmdline, other);
    if out == cmdline {
    } else if cmdline == "" {
      assert out == other;
      NoOption(other, h);
      NoOption(cmdline, h);
    } else {
      AppendedKeeps(cmdline, other, h);
    }
  }

  lemma NoOption(s: string, h: string)
    requires !Contains(s, h)
    ensures !IsOption(s, h)
  {
  }

  lemma AppendedKeeps(a: string, b: string, h: string)
    requires SpaceFree(h) && !Contains(b, h)
    ensures Contains(a + " " + b, h) <==> Contains(a, h)
    ensures IsOption(a + " " + b, h) <==> IsOption(a, h)
  {
    var s := a + " " + b;
    forall i | 0 <= i <= |s| - |h| && OccursAt(s, i, h)
      ensures OccursAt(a, i, h) && (OptionAt(s, i, h) ==> OptionAt(a, i, h))
    {
      OccursInEither(a, b, h, i);
      assert i > |a| ==> OccursAt(b, i - |a| - 1, h);
      if OccursAt(a, i, h) {
        OccursInFront(a, b, h, i);
      }
    }
    forall i | 0 <= i <= |a| - |h| && OccursAt(a, i, h)
      ensures OccursAt(s, i, h) && (OptionAt(a, i, h) ==> OptionAt(s, i, h))
    {
      OccursInFront(a, b, h, i);
    }
  }

  lemma {:induction false} OthersKeep(cmdline: string, others: seq<string>, h: string)
    requires SpaceFree(h) && h != "" && forall i :: 0 <= i < |others| ==> !Contains(others[i], h)
    ensures Contains(AddHints(cmdline, others), h) <==> Contains(cmdline, h)
    ensures IsOption(AddHints(cmdline, others), h) <==> IsOption(cmdline, h)
    decreases |others|
  {
    if others != [] {
      OtherHintsKeep(cmdline, others[0], h);
      OthersKeep(AddHint(cmdline, others[0]), others[1..], h);
    }
  }

  predicate IsWord(h: string) { h != "" && SpaceFree(h) }

  /** Words none of which contains another. */
  predicate Separate(hints: seq<string>) {
    && (forall i :: 0 <= i < |hints| ==> IsWord(hints[i]))
    && (forall i, j :: 0 <= i < |hints| && 0 <= j < |hints| && i != j ==> !Contains(hints[i], hints[j]))
  }

  /** Each hint becomes an option exactly when it was one already or its text did not occur on the line
      before. */
  lemma {:induction false} OptionsIffNotShadowed(cmdline: string, hints: seq<string>, k: nat)
    requires Separate(hints) && k < |hints|
    ensures IsOption(AddHints(cmdline, hints), hints[k]) <==>
      IsOption(cmdline, hints[k]) || !Contains(cmdline, hints[k])
    decreases |hints|
  {
    var next, rest := AddHint(cmdline, hints[0]), hints[1..];
    assert forall i :: 0 <= i < |rest| ==> rest[i] == hints[i + 1];
    assert IsWord(hints[k]);
    if k == 0 {
      OptionIffNotShadowed(cmdline, hints[0]);
      OthersKeep(next, rest, hints[0]);
    } else {
      OtherHintsKeep(cmdline, hints[0], hints[k]);
      OptionsIffNotShadowed(next, rest, k - 1);
    }
  }
}
