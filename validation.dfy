/** `IsNullOrEmpty`: an emptiness test on the printed (`%v`) form of a
    value. The text operations follow Go's `strings.TrimSpace` and
    `strings.Fields`, which both use Unicode white space. */
module Validation {

  /** A value as `IsNullOrEmpty` sees it: whether the interface itself is
      nil, and the text Go's `%v` verb prints for it. */
  datatype Printed = Printed(isNil: bool, text: string)

  /** Go's `unicode.IsSpace`: the ASCII spaces \t \n \v \f \r and ' ',
      U+0085, U+00A0, and the remaining Unicode White_Space characters.
      Within Latin-1 these eight are the only ones, and no white space
      lies above U+3000. */
  function IsSpace(c: char): (r: bool)
    ensures c as int < 0x100 ==>
      (r <==> c as int in {9, 10, 11, 12, 13, 0x20, 0x85, 0xA0})
    ensures r ==> c as int <= 0x3000
  {
    var n := c as int;
    (9 <= n <= 13) || n == 0x20 || n == 0x85 || n == 0xA0 || n == 0x1680
    || (0x2000 <= n <= 0x200A) || n == 0x2028 || n == 0x2029 || n == 0x202F
    || n == 0x205F || n == 0x3000
  }

  /** Every character of `s` in positions lo..hi-1 is white space. */
  predicate SpaceBetween(s: string, lo: int, hi: int)
    requires 0 <= lo <= hi <= |s|
  {
    forall i :: lo <= i < hi ==> IsSpace(s[i])
  }

  predicate AllSpace(s: string) {
    SpaceBetween(s, 0, |s|)
  }

  predicate NoSpace(s: string) {
    forall i :: 0 <= i < |s| ==> !IsSpace(s[i])
  }

  /** `s` with its leading white space removed. */
  function TrimLeft(s: string): (r: string)
    ensures |r| <= |s| && r == s[|s| - |r|..]
    ensures SpaceBetween(s, 0, |s| - |r|)
    ensures r == [] || !IsSpace(r[0])
  {
    if s != [] && IsSpace(s[0]) then
      var r := TrimLeft(s[1..]);
      assert forall i :: 1 <= i < |s| ==> s[1..][i - 1] == s[i];
      r
    else s
  }

  /** `s` with its trailing white space removed. */
  function TrimRight(s: string): (r: string)
    ensures |r| <= |s| && r == s[..|r|]
    ensures SpaceBetween(s, |r|, |s|)
    ensures r == [] || !IsSpace(r[|r| - 1])
  {
    if s != [] && IsSpace(s[|s| - 1]) then
      var r := TrimRight(s[..|s| - 1]);
      assert forall i :: 0 <= i < |s| - 1 ==> s[..|s| - 1][i] == s[i];
      r
    else s
  }

  /** Go's `strings.TrimSpace`. */
  function TrimSpace(s: string): (r: string)
    ensures |r| <= |s|
    ensures r == [] || (!IsSpace(r[0]) && !IsSpace(r[|r| - 1]))
  {
    var t := TrimLeft(s);
    var r := TrimRight(t);
    assert r != [] ==> r[0] == t[0];
    r
  }

  /** The longest prefix of `s` free of white space. */
  function Word(s: string): (w: string)
    ensures |w| <= |s| && w == s[..|w|]
    ensures NoSpace(w)
    ensures |w| == |s| || IsSpace(s[|w|])
  {
    if s != [] && !IsSpace(s[0]) then [s[0]] + Word(s[1..]) else []
  }

  /** A field: non-empty and free of white space. */
  predicate IsField(w: string) {
    w != [] && NoSpace(w)
  }

  /** Go's `strings.Fields`: the maximal runs of non-space characters, in
      order. */
  function Fields(s: string): (r: seq<string>)
    ensures |r| <= |s|
    decreases |s|
  {
    var t := TrimLeft(s);
    if t == [] then []
    else
      var w := Word(t);
      assert w != [] by {
        assert !IsSpace(t[0]);
      }
      [w] + Fields(t[|w|..])
  }

  /** The Go function, check by check and in the same order; the check on
      an empty field list is kept although it can never decide the
      outcome (see FieldsCheckIsRedundant). */
  function IsNullOrEmpty(v: Printed): (r: bool)
    ensures v.isNil ==> r
    ensures !v.isNil && v.text == "map[]" ==> r
  {
    if v.isNil then true
    else if TrimSpace(v.text) == "" then true
    else if TrimSpace(v.text) == "{}" then true
    else if v.text == "map[]" then true
    else
      var str := Fields(v.text);
      if |str| == 0 then true
      else if |str| == 2 && str[0] == "{" && str[1] == "}" then true
      else false
  }

  // ---------------------------------------------------------------------
  // Facts about trimming and splitting

  /** Trimming the left removes everything exactly when the text is all
      white space. */
  lemma TrimLeftEmptyIffAllSpace(s: string)
    ensures TrimLeft(s) == [] <==> AllSpace(s)
  {
    var r := TrimLeft(s);
    assert |r| > 0 ==> r[0] == s[|s| - |r|];
  }

  /** A string that is all white space trims to nothing, and only such a
      string does. */
  lemma TrimSpaceEmptyIffAllSpace(s: string)
    ensures TrimSpace(s) == [] <==> AllSpace(s)
  {
    TrimLeftEmptyIffAllSpace(s);
    var t := TrimLeft(s);
    var r := TrimRight(t);
  }

  /** Splitting gives no field exactly when the text is all white space. */
  lemma FieldsEmptyIffAllSpace(s: string)
    ensures Fields(s) == [] <==> AllSpace(s)
  {
    TrimLeftEmptyIffAllSpace(s);
  }

  /** White space from position k on is white space of the suffix. */
  lemma SpaceBetweenSuffix(s: string, k: int)
    requires 0 <= k <= |s|
    ensures SpaceBetween(s, k, |s|) <==> AllSpace(s[k..])
  {
    assert forall i :: k <= i < |s| ==> s[k..][i - k] == s[i];
  }

  /** TrimRight is determined by its three properties. */
  lemma {:induction false} TrimRightUnique(s: string, x: string)
    requires |x| <= |s| && x == s[..|x|]
    requires SpaceBetween(s, |x|, |s|)
    requires x == [] || !IsSpace(x[|x| - 1])
    ensures TrimRight(s) == x
    decreases |s|
  {
    if |x| == |s| {
      assert x == s;
    } else {
      var init := s[..|s| - 1];
      assert IsSpace(s[|s| - 1]);
      assert x == init[..|x|];
      assert forall i :: |x| <= i < |init| ==> init[i] == s[i];
      TrimRightUnique(init, x);
    }
  }

  /** Word is determined by its three properties. */
  lemma {:induction false} WordUnique(s: string, x: string)
    requires |x| <= |s| && x == s[..|x|]
    requires NoSpace(x)
    requires |x| == |s| || IsSpace(s[|x|])
    ensures Word(s) == x
    decreases |s|
  {
    if x != [] {
      assert s[0] == x[0] && !IsSpace(s[0]);
      var rest, tail := s[1..], x[1..];
      assert tail == rest[..|tail|];
      assert NoSpace(tail) by {
        assert forall i :: 0 <= i < |tail| ==> tail[i] == x[i + 1];
      }
      assert |tail| < |rest| ==> rest[|tail|] == s[|x|];
      WordUnique(rest, tail);
      assert x == [s[0]] + tail;
    }
  }

  /** Every field is non-empty and free of white space. */
  lemma {:induction false} FieldAt(s: string, i: int)
    requires 0 <= i < |Fields(s)|
    ensures IsField(Fields(s)[i])
    decreases |s|
  {
    var t := TrimLeft(s);
    var w := Word(t);
    var rest := t[|w|..];
    assert t != [];
    assert Fields(s) == [w] + Fields(rest);
    if i == 0 {
      assert !IsSpace(t[0]);
      assert Fields(s)[0] == w;
    } else {
      FieldAt(rest, i - 1);
      assert Fields(s)[i] == Fields(rest)[i - 1];
    }
  }

  /** Trimming the left of white space `g` followed by text `r` that does
      not start with white space leaves exactly `r`. */
  lemma {:induction false} TrimLeftSpacePrefix(g: string, r: string)
    requires AllSpace(g)
    requires r == [] || !IsSpace(r[0])
    ensures TrimLeft(g + r) == r
    decreases |g|
  {
    if g == [] {
      assert g + r == r;
    } else {
      var s := g + r;
      assert s[0] == g[0] && IsSpace(s[0]);
      assert s[1..] == g[1..] + r;
      assert AllSpace(g[1..]) by {
        assert forall i :: 0 <= i < |g[1..]| ==> g[1..][i] == g[i + 1];
      }
      TrimLeftSpacePrefix(g[1..], r);
    }
  }

  /** `Fields` splits text at its white space: white space `g`, then a
      field `w` ended by the end of the text or by white space, give `w`
      followed by the fields of the rest `t`. With FieldsEmptyIffAllSpace
      this fixes `Fields` on every input: its result is the maximal runs
      of non-space characters, in order. */
  lemma FieldsCons(g: string, w: string, t: string)
    requires AllSpace(g) && IsField(w)
    requires t == [] || IsSpace(t[0])
    ensures Fields(g + w + t) == [w] + Fields(t)
  {
    var s := g + w + t;
    var wt := w + t;
    assert s == g + wt;
    assert wt[0] == w[0];
    TrimLeftSpacePrefix(g, wt);
    assert wt[..|w|] == w;
    assert |w| < |wt| ==> wt[|w|] == t[0];
    WordUnique(wt, w);
    assert wt[|w|..] == t;
  }

  /** Text that splits into the single field `w` trims to `w`. */
  lemma SingleFieldTrims(s: string, w: string)
    requires Fields(s) == [w]
    ensures w != [] && NoSpace(w) && TrimSpace(s) == w
  {
    var t := TrimLeft(s);
    assert t != [];
    var u := Word(t);
    var rest := t[|u|..];
    assert Fields(s) == [u] + Fields(rest);
    assert ([u] + Fields(rest))[0] == u && [w][0] == w;
    assert u == w;
    assert |Fields(rest)| == 0 by {
      assert |[u] + Fields(rest)| == 1 + |Fields(rest)|;
    }
    FieldsEmptyIffAllSpace(rest);
    SpaceBetweenSuffix(t, |u|);
    TrimRightUnique(t, w);
  }

  /** Text that trims to a non-empty `w` free of white space splits into
      the single field `w`. */
  lemma TrimmedWordIsSingleField(s: string, w: string)
    requires w != [] && NoSpace(w) && TrimSpace(s) == w
    ensures Fields(s) == [w]
  {
    var t := TrimLeft(s);
    assert TrimRight(t) == w;
    WordUnique(t, w);
    SpaceBetweenSuffix(t, |w|);
    FieldsEmptyIffAllSpace(t[|w|..]);
  }

  /** Text splits into exactly one field `w` precisely when it trims to a
      non-empty `w` free of inner white space. */
  lemma SingleField(s: string, w: string)
    ensures Fields(s) == [w] <==> (w != [] && NoSpace(w) && TrimSpace(s) == w)
  {
    if Fields(s) == [w] {
      SingleFieldTrims(s, w);
    }
    if w != [] && NoSpace(w) && TrimSpace(s) == w {
      TrimmedWordIsSingleField(s, w);
    }
  }

  // ---------------------------------------------------------------------
  // Properties of IsNullOrEmpty

  /** A nil value is always empty. */
  lemma NilIsEmpty(text: string)
    ensures IsNullOrEmpty(Printed(true, text))
  {
  }

  /** Text made of white space only is empty. */
  lemma BlankIsEmpty(text: string)
    requires AllSpace(text)
    ensures IsNullOrEmpty(Printed(false, text))
  {
    TrimSpaceEmptyIffAllSpace(text);
  }

  /** Text that trims to `{}` is empty. */
  lemma TrimmedBracesAreEmpty(text: string)
    requires TrimSpace(text) == "{}"
    ensures IsNullOrEmpty(Printed(false, text))
  {
  }

  /** Exactly `map[]`, compared without trimming, is empty. */
  lemma EmptyMapIsEmpty()
    ensures IsNullOrEmpty(Printed(false, "map[]"))
  {
  }

  /** Text that splits into exactly the fields `{` and `}` is empty. */
  lemma SplitBracesAreEmpty(text: string)
    requires Fields(text) == ["{", "}"]
    ensures IsNullOrEmpty(Printed(false, text))
  {
  }

  /** The check on an empty field list never changes the outcome: when
      splitting yields no field, the trim check already answered. */
  lemma FieldsCheckIsRedundant(text: string)
    requires Fields(text) == []
    ensures TrimSpace(text) == ""
  {
    FieldsEmptyIffAllSpace(text);
    TrimSpaceEmptyIffAllSpace(text);
  }

  /** Text trims to `{}` exactly when it splits into the single field
      `{}`. */
  lemma BracesTrimIffSingleField(text: string)
    ensures TrimSpace(text) == "{}" <==> Fields(text) == ["{}"]
  {
    assert NoSpace("{}") by {
      assert "{}"[0] == '{' && "{}"[1] == '}';
    }
    SingleField(text, "{}");
  }

  /** An independent description of the verdict: a non-nil value is empty
      exactly when its text is `map[]` verbatim, or splits into no field,
      into the single field `{}`, or into the two fields `{` and `}`. */
  lemma IsNullOrEmptyIff(v: Printed)
    ensures IsNullOrEmpty(v) <==>
      (v.isNil || v.text == "map[]" || Fields(v.text) == [] ||
       Fields(v.text) == ["{}"] || Fields(v.text) == ["{", "}"])
  {
    if !v.isNil {
      TrimEmptyIffNoFields(v.text);
      BracesTrimIffSingleField(v.text);
      TwoBraceFields(Fields(v.text));
    }
  }

  /** Text trims to nothing exactly when it splits into no field. */
  lemma TrimEmptyIffNoFields(text: string)
    ensures TrimSpace(text) == "" <==> Fields(text) == []
  {
    TrimSpaceEmptyIffAllSpace(text);
    FieldsEmptyIffAllSpace(text);
  }

  /** The element-wise test on a field list is a test for `{`, `}`. */
  lemma TwoBraceFields(str: seq<string>)
    ensures (|str| == 2 && str[0] == "{" && str[1] == "}") <==> str == ["{", "}"]
  {
  }

  /** Text that splits into a single field other than `{}` (and is not
      `map[]` verbatim) is not empty. */
  lemma OtherSingleFieldNotEmpty(text: string, w: string)
    requires Fields(text) == [w] && w != "{}" && text != "map[]"
    ensures !IsNullOrEmpty(Printed(false, text))
  {
    IsNullOrEmptyIff(Printed(false, text));
    assert Fields(text) != ["{", "}"] by {
      assert |Fields(text)| == 1;
    }
  }

  /** Text that splits into two or more fields, other than `{` and `}`,
      is not empty (unless it is `map[]` verbatim). */
  lemma SeveralFieldsNotEmpty(text: string)
    requires |Fields(text)| >= 2 && Fields(text) != ["{", "}"] && text != "map[]"
    ensures !IsNullOrEmpty(Printed(false, text))
  {
    IsNullOrEmptyIff(Printed(false, text));
  }

  /** A typed nil pointer prints as `<nil>`, which is not empty. */
  lemma ExampleNilPointer()
    ensures !IsNullOrEmpty(Printed(false, "<nil>"))
  {
    var s := "<nil>";
    assert NoSpace(s) by {
      assert s[0] == '<' && s[1] == 'n' && s[2] == 'i' && s[3] == 'l' && s[4] == '>';
    }
    assert TrimSpace(s) == s by {
      assert TrimLeft(s) == s && TrimRight(s) == s;
    }
    SingleField(s, s);
    OtherSingleFieldNotEmpty(s, s);
  }
}
