/** The text comparison of the analysis service: lower-casing and collapsing whitespace in place. */
module TextNormalization {
  import opened Collections

  type byte = x: int | 0 <= x < 256

  /** `tolower` and `isspace` of the C locale. */
  function Lower(b: byte): byte { if 65 <= b <= 90 then b + 32 else b }

  predicate IsSpace(b: byte) { b == 32 || 9 <= b <= 13 }

  function Lowered(text: seq<byte>): (r: seq<byte>)
    ensures |r| == |text| && forall i | 0 <= i < |text| :: r[i] == Lower(text[i])
  {
    seq(|text|, i requires 0 <= i < |text| => Lower(text[i]))
  }

  /** Drops every whitespace byte that directly follows another one in the text. */
  function Collapsed(text: seq<byte>): seq<byte> {
    if text == [] then []
    else
      var n := |text|;
      Collapsed(text[..n - 1]) + if n >= 2 && IsSpace(text[n - 2]) && IsSpace(text[n - 1]) then [] else [text[n - 1]]
  }

  function Normalized(text: seq<byte>): seq<byte> { Collapsed(Lowered(text)) }

  // ----- the in-place algorithm ------------------------------------------------------------------------------

  method LowerInPlace(a: array<byte>)
    modifies a
    ensures a[..] == Lowered(old(a[..]))
  {
    for i := 0 to a.Length
      invariant forall j | 0 <= j < i :: a[j] == Lower(old(a[j]))
      invariant forall j | i <= j < a.Length :: a[j] == old(a[j])
    {
      a[i] := Lower(a[i]);
    }
  }

  lemma CollapsedExtend(text: seq<byte>, n: nat)
    requires 0 < n < |text|
    ensures Collapsed(text[..n + 1])
         == Collapsed(text[..n]) + if IsSpace(text[n - 1]) && IsSpace(text[n]) then [] else [text[n]]
  {
    assert text[..n + 1][..n] == text[..n];
  }

  /** `std::unique`: compares with the last element kept, which need not be the predecessor in the text. */
  method UniqueInPlace(a: array<byte>) returns (end: nat)
    modifies a
    ensures end <= a.Length && a[..end] == Collapsed(old(a[..]))
  {
    if a.Length == 0 {
      return 0;
    }
    ghost var text := a[..];
    var dest, first := 0, 1;
    assert text[..1] == [text[0]] && text[..1][..0] == [];
    assert Collapsed(text[..1]) == Collapsed(text[..1][..0]) + [text[0]];
    while first < a.Length
      invariant 0 <= dest < first <= a.Length
      invariant a[..dest + 1] == Collapsed(text[..first])
      invariant IsSpace(a[dest]) == IsSpace(text[first - 1])
      invariant forall j | first <= j < a.Length :: a[j] == text[j]
    {
      CollapsedExtend(text, first);
      if !(IsSpace(a[dest]) && IsSpace(a[first])) {
        dest := dest + 1;
        a[dest] := a[first];
        assert a[..dest + 1] == a[..dest] + [a[dest]];
      }
      first := first + 1;
    }
    assert text[..first] == text;
    end := dest + 1;
  }

  method NormalizeText(text: seq<byte>) returns (result: seq<byte>)
    ensures result == Normalized(text)
  {
    var buffer := new byte[|text|](i requires 0 <= i < |text| => text[i]);
    assert buffer[..] == text;
    LowerInPlace(buffer);
    var end := UniqueInPlace(buffer);
    result := buffer[..end];
  }

  // ----- what normalization means -------------------------------------------------------------------------------

  predicate RunAt(text: seq<byte>, i: int)
    requires 0 < i < |text|
  {
    IsSpace(text[i - 1]) && IsSpace(text[i])
  }

  predicate NoSpaceRuns(text: seq<byte>) {
    forall i | 0 < i < |text| :: !RunAt(text, i)
  }

  predicate NoCapitals(text: seq<byte>) {
    forall i | 0 <= i < |text| :: !(65 <= text[i] <= 90)
  }

  /** The last byte kept is a space exactly if the last byte of the text is. */
  lemma {:induction false} CollapsedEnd(text: seq<byte>)
    requires text != []
    ensures Collapsed(text) != []
    ensures IsSpace(Collapsed(text)[|Collapsed(text)| - 1]) <==> IsSpace(text[|text| - 1])
  {
    if |text| >= 2 {
      CollapsedEnd(text[..|text| - 1]);
    }
  }

  lemma {:induction false} CollapsedHasNoRuns(text: seq<byte>)
    ensures NoSpaceRuns(Collapsed(text))
    ensures NoCapitals(text) ==> NoCapitals(Collapsed(text))
  {
    if text != [] {
      var front := text[..|text| - 1];
      CollapsedHasNoRuns(front);
      if front != [] {
        CollapsedEnd(front);
      }
      forall i | 0 < i < |Collapsed(text)| ensures !RunAt(Collapsed(text), i) {
        assert i < |Collapsed(front)| ==> !RunAt(Collapsed(front), i);
      }
    }
  }

  lemma {:induction false} CollapsedFixed(text: seq<byte>)
    requires NoSpaceRuns(text)
    ensures Collapsed(text) == text
  {
    if text != [] {
      var front, last := text[..|text| - 1], text[|text| - 1];
      forall i | 0 < i < |front| ensures !RunAt(front, i) {
        assert !RunAt(text, i);
      }
      CollapsedFixed(front);
      assert |text| >= 2 ==> !RunAt(text, |text| - 1);
      assert text == front + [last];
    }
  }

  /** The result has no capitals and no two adjacent whitespace bytes, and normalizing it again changes nothing. */
  lemma NormalizedIsNormal(text: seq<byte>)
    ensures NoSpaceRuns(Normalized(text)) && NoCapitals(Normalized(text))
    ensures Normalized(Normalized(text)) == Normalized(text)
  {
    CollapsedHasNoRuns(Lowered(text));
    assert Lowered(Normalized(text)) == Normalized(text);
    CollapsedFixed(Normalized(text));
  }

  /** A text is its own normal form exactly if it has no capitals and no whitespace runs. */
  lemma NormalExactly(text: seq<byte>)
    ensures Normalized(text) == text <==> NoSpaceRuns(text) && NoCapitals(text)
  {
    NormalizedIsNormal(text);
    if NoSpaceRuns(text) && NoCapitals(text) {
      assert Lowered(text) == text;
      CollapsedFixed(text);
    }
  }

  lemma CollapsedAppend(text: seq<byte>, b: byte)
    ensures Collapsed(text + [b])
         == Collapsed(text) + if text != [] && IsSpace(text[|text| - 1]) && IsSpace(b) then [] else [b]
  {
    assert (text + [b])[..|text + [b]| - 1] == text;
  }

  /** Lengthening a whitespace run anywhere in a text does not change its normal form. */
  lemma {:induction false} LongerRunSameForm(before: seq<byte>, space: byte, more: byte, after: seq<byte>)
    requires IsSpace(space) && IsSpace(more)
    ensures Collapsed(before + [space] + [more] + after) == Collapsed(before + [space] + after)
  {
    var long, short := before + [space] + [more], before + [space];
    if after == [] {
      CollapsedAppend(short, more);
      assert long + after == long && short + after == short;
      assert Collapsed(short) + [] == Collapsed(short);
    } else {
      var front, last := after[..|after| - 1], after[|after| - 1];
      LongerRunSameForm(before, space, more, front);
      CollapsedAppend(long + front, last);
      CollapsedAppend(short + front, last);
      assert long + after == long + front + [last] && short + after == short + front + [last];
    }
  }

  // ----- similarity ---------------------------------------------------------------------------------------------

  /** `None` is a file that cannot be opened. */
  predicate Comparable(file: Option<seq<byte>>) { file.Some? && file.value != [] }

  method CalculateSimilarity(file1: Option<seq<byte>>, file2: Option<seq<byte>>) returns (score: int)
    ensures score == 100 || score == 0
    ensures score == 100 <==> Similar(file1, file2)
  {
    if file1.None? || file2.None? {
      return 0;
    }
    if file1.value == [] || file2.value == [] {
      return 0;
    }
    var normalized1 := NormalizeText(file1.value);
    var normalized2 := NormalizeText(file2.value);
    score := if normalized1 == normalized2 then 100 else 0;
  }

  predicate Similar(file1: Option<seq<byte>>, file2: Option<seq<byte>>) {
    Comparable(file1) && Comparable(file2) && Normalized(file1.value) == Normalized(file2.value)
  }

  /** Score 100 is an equivalence relation on the nonempty readable files, each equivalent to its normal form. */
  lemma SimilarityIsEquivalence(a: Option<seq<byte>>, b: Option<seq<byte>>, c: Option<seq<byte>>)
    ensures Similar(a, a) <==> Comparable(a)
    ensures Similar(a, b) ==> Similar(b, a)
    ensures Similar(a, b) && Similar(b, c) ==> Similar(a, c)
    ensures Comparable(a) ==> Similar(a, Some(Normalized(a.value)))
  {
    if Comparable(a) {
      NormalizedIsNormal(a.value);
      CollapsedEnd(Lowered(a.value));
    }
  }

  // ----- letters and whitespace, byte by byte ---------------------------------------------------------------------

  /** The same byte, or the two cases of one letter. */
  predicate SameButCase(x: byte, y: byte) {
    x == y || (65 <= x <= 90 && y == x + 32) || (65 <= y <= 90 && x == y + 32)
  }

  /** Anywhere in a text a capital may be exchanged for its small letter. */
  lemma CaseIsIgnored(before: seq<byte>, k: nat, after: seq<byte>)
    requires k < 26
    ensures Similar(Some(before + [65 + k] + after), Some(before + [97 + k] + after))
  {
    LoweredConcat(before + [65 + k], after);
    LoweredConcat(before + [97 + k], after);
    LoweredConcat(before, [65 + k]);
    LoweredConcat(before, [97 + k]);
    assert Lowered([65 + k]) == [97 + k] == Lowered([97 + k]);
  }

  /** Texts of one length without whitespace are similar exactly if they agree byte by byte up to case. */
  lemma WordsSimilarExactly(a: seq<byte>, b: seq<byte>)
    requires |a| == |b| > 0
    requires forall i | 0 <= i < |a| :: !(a[i] == 32 || 9 <= a[i] <= 13)
    requires forall i | 0 <= i < |b| :: !(b[i] == 32 || 9 <= b[i] <= 13)
    ensures Similar(Some(a), Some(b)) <==> forall i | 0 <= i < |a| :: SameButCase(a[i], b[i])
  {
    assert Similar(Some(a), Some(b)) <==> Lowered(a) == Lowered(b) by {
      WordIsKept(a);
      WordIsKept(b);
    }
    LoweredSame(a, b);
  }

  lemma LowerSame(x: byte, y: byte)
    ensures Lower(x) == Lower(y) <==> SameButCase(x, y)
  {
  }

  lemma LoweredSame(a: seq<byte>, b: seq<byte>)
    requires |a| == |b|
    ensures Lowered(a) == Lowered(b) <==> forall i | 0 <= i < |a| :: SameButCase(a[i], b[i])
  {
    forall i | 0 <= i < |a| ensures Lowered(a)[i] == Lowered(b)[i] <==> SameButCase(a[i], b[i]) {
      LowerSame(a[i], b[i]);
    }
  }

  lemma WordIsKept(word: seq<byte>)
    requires forall i | 0 <= i < |word| :: !(word[i] == 32 || 9 <= word[i] <= 13)
    ensures Normalized(word) == Lowered(word)
  {
    forall i | 0 < i < |word| ensures !RunAt(Lowered(word), i) {
      assert Lowered(word)[i] == Lower(word[i]);
    }
    CollapsedFixed(Lowered(word));
  }

  /** Of two neighbouring bytes the second is dropped exactly if both are a blank or one of the five control
      bytes from tab to carriage return. */
  lemma WhitespaceExactly(w: byte, x: byte)
    ensures Similar(Some([97, w, x, 98]), Some([97, w, 98]))
       <==> (w == 32 || 9 <= w <= 13) && (x == 32 || 9 <= x <= 13)
  {
    BetweenLetters(w);
    if (w == 32 || 9 <= w <= 13) && (x == 32 || 9 <= x <= 13) {
      LongerRunSameForm([97], w, x, [98]);
      assert [97] + [w] + [x] + [98] == [97, w, x, 98] && [97] + [w] + [98] == [97, w, 98];
      assert Lowered([97, w, x, 98]) == [97, w, x, 98] && Lowered([97, w, 98]) == [97, w, 98];
    } else {
      BothBetweenLetters(w, x);
    }
  }

  lemma BothBetweenLetters(w: byte, x: byte)
    requires !((w == 32 || 9 <= w <= 13) && (x == 32 || 9 <= x <= 13))
    ensures Normalized([97, w, x, 98]) == Lowered([97, w, x, 98])
  {
    var two: seq<byte> := [97, w, x, 98];
    forall i | 0 < i < |two| ensures !RunAt(Lowered(two), i) {
      assert i == 1 || i == 2 || i == 3;
    }
    CollapsedFixed(Lowered(two));
  }

  lemma BetweenLetters(w: byte)
    ensures Normalized([97, w, 98]) == Lowered([97, w, 98])
  {
    var one: seq<byte> := [97, w, 98];
    forall i | 0 < i < |one| ensures !RunAt(Lowered(one), i) {
      assert i == 1 || i == 2;
    }
    CollapsedFixed(Lowered(one));
  }

  // ----- which texts are similar --------------------------------------------------------------------------------

  /** Every whitespace byte replaced by a blank. */
  function Blank(b: byte): byte { if IsSpace(b) then 32 else b }

  function Blanked(text: seq<byte>): (r: seq<byte>)
    ensures |r| == |text| && forall i | 0 <= i < |text| :: r[i] == Blank(text[i])
  {
    seq(|text|, i requires 0 <= i < |text| => Blank(text[i]))
  }

  function Spaces(text: seq<byte>): seq<byte> {
    if text == [] then []
    else Spaces(text[..|text| - 1]) + if IsSpace(text[|text| - 1]) then [text[|text| - 1]] else []
  }

  /** The first byte of each whitespace run, in order. */
  function RunHeads(text: seq<byte>): seq<byte> {
    if text == [] then []
    else
      var n := |text|;
      RunHeads(text[..n - 1]) + if IsSpace(text[n - 1]) && (n == 1 || !IsSpace(text[n - 2])) then [text[n - 1]] else []
  }

  /** The text up to case and to the kind and length of its whitespace runs. */
  function Shape(text: seq<byte>): seq<byte> { Collapsed(Blanked(Lowered(text))) }

  /** Collapsing commutes with blanking. */
  lemma {:induction false} BlankedCollapses(text: seq<byte>)
    ensures Collapsed(Blanked(text)) == Blanked(Collapsed(text))
  {
    if text != [] {
      var front, last := text[..|text| - 1], text[|text| - 1];
      BlankedCollapses(front);
      assert Blanked(text)[..|text| - 1] == Blanked(front);
      assert Blanked(Collapsed(front) + [last]) == Blanked(Collapsed(front)) + [Blank(last)];
    }
  }

  lemma SpacesExtend(text: seq<byte>, b: byte)
    ensures Spaces(text + [b]) == Spaces(text) + if IsSpace(b) then [b] else []
  {
    assert (text + [b])[..|text + [b]| - 1] == text;
  }

  /** What collapsing keeps of the whitespace is the head of each run. */
  lemma {:induction false} HeadsAreKept(text: seq<byte>)
    ensures Spaces(Collapsed(text)) == RunHeads(text)
  {
    if text != [] {
      var front, last := text[..|text| - 1], text[|text| - 1];
      HeadsAreKept(front);
      SpacesExtend(Collapsed(front), last);
      assert Collapsed(front) + [] == Collapsed(front);
    }
  }

  lemma SpacesSplit(p: seq<byte>, q: seq<byte>, x: byte, y: byte)
    requires Blank(x) == Blank(y)
    requires p + (if IsSpace(x) then [x] else []) == q + if IsSpace(y) then [y] else []
    ensures p == q && x == y
  {
    if IsSpace(x) {
      assert (p + [x])[..|p|] == p && (q + [y])[..|q|] == q;
      assert (p + [x])[|p|] == x && (q + [y])[|q|] == y;
    } else {
      assert p + [] == p && q + [] == q;
    }
  }

  /** The blanked text and its whitespace bytes determine a text. */
  lemma {:induction false} PartsDetermine(a: seq<byte>, b: seq<byte>)
    requires Blanked(a) == Blanked(b) && Spaces(a) == Spaces(b)
    ensures a == b
  {
    assert |a| == |Blanked(a)| == |Blanked(b)| == |b|;
    if a != [] {
      var front, rest := a[..|a| - 1], b[..|b| - 1];
      var x, y := a[|a| - 1], b[|b| - 1];
      assert Blank(x) == Blanked(a)[|a| - 1] == Blank(y);
      SpacesSplit(Spaces(front), Spaces(rest), x, y);
      assert Blanked(front) == Blanked(a)[..|a| - 1] == Blanked(rest);
      PartsDetermine(front, rest);
      assert a == front + [x] && b == rest + [y];
    }
  }

  lemma {:induction false} HeadsOfLowered(text: seq<byte>)
    ensures RunHeads(Lowered(text)) == RunHeads(text)
  {
    if text != [] {
      HeadsOfLowered(text[..|text| - 1]);
      assert Lowered(text)[..|text| - 1] == Lowered(text[..|text| - 1]);
    }
  }

  /** Two texts are similar exactly if they have the same shape and corresponding whitespace runs begin with
      the same byte; the rest of a run does not matter. */
  lemma SimilarExactly(a: seq<byte>, b: seq<byte>)
    ensures Normalized(a) == Normalized(b) <==> Shape(a) == Shape(b) && RunHeads(a) == RunHeads(b)
    ensures Similar(Some(a), Some(b)) <==> a != [] && b != [] && Shape(a) == Shape(b) && RunHeads(a) == RunHeads(b)
  {
    BlankedCollapses(Lowered(a));
    BlankedCollapses(Lowered(b));
    HeadsAreKept(Lowered(a));
    HeadsAreKept(Lowered(b));
    HeadsOfLowered(a);
    HeadsOfLowered(b);
    if Shape(a) == Shape(b) && RunHeads(a) == RunHeads(b) {
      PartsDetermine(Normalized(a), Normalized(b));
    }
  }

  /** Inside a run the kind of whitespace is ignored. */
  lemma RestOfRunIsIgnored(before: seq<byte>, space: byte, x: byte, y: byte, after: seq<byte>)
    requires IsSpace(space) && IsSpace(x) && IsSpace(y)
    ensures Similar(Some(before + [space] + [x] + after), Some(before + [space] + [y] + after))
  {
    LongerRunSameForm(Lowered(before), space, x, Lowered(after));
    LongerRunSameForm(Lowered(before), space, y, Lowered(after));
    LoweredRun(before, space, x, after);
    LoweredRun(before, space, y, after);
  }

  lemma LoweredRun(before: seq<byte>, space: byte, more: byte, after: seq<byte>)
    requires IsSpace(space) && IsSpace(more)
    ensures Lowered(before + [space] + [more] + after) == Lowered(before) + [space] + [more] + Lowered(after)
  {
    LoweredConcat(before + [space] + [more], after);
    LoweredConcat(before + [space], [more]);
    LoweredConcat(before, [space]);
    assert Lowered([space]) == [space] && Lowered([more]) == [more];
  }

  lemma LoweredConcat(a: seq<byte>, b: seq<byte>)
    ensures Lowered(a + b) == Lowered(a) + Lowered(b)
  {
  }

  /** At the head of a run it is not. */
  lemma TabIsNotBlank()
    ensures !Similar(Some([97, 9, 98]), Some([97, 32, 98]))
  {
    var tab, blank: seq<byte> := [97, 9, 98], [97, 32, 98];
    NormalExactly(tab);
    NormalExactly(blank);
    assert tab[1] != blank[1];
  }
}
