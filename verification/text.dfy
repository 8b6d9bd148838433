/** String operations the debt page relies on: `toLowerCase`, `includes`, and
    `replace(/\s+/g, '_')`. */
module Text {

  /** The characters JavaScript's `\s` class matches: the ASCII blanks,
      no-break space, the Unicode space separators, the line and paragraph
      separators, and the byte order mark. */
  predicate IsWhitespace(c: char) {
    || c == ' ' || c == '\t' || c == '\n' || c == '\r'
    || c == '\U{000B}' || c == '\U{000C}' || c == '\U{00A0}' || c == '\U{1680}'
    || ('\U{2000}' <= c <= '\U{200A}')
    || c == '\U{2028}' || c == '\U{2029}' || c == '\U{202F}' || c == '\U{205F}'
    || c == '\U{3000}' || c == '\U{FEFF}'
  }

  predicate NoWhitespace(s: string) {
    forall i :: 0 <= i < |s| ==> !IsWhitespace(s[i])
  }

  predicate AllWhitespace(s: string) {
    forall i :: 0 <= i < |s| ==> IsWhitespace(s[i])
  }

  /** Lower-cases the ASCII capitals and leaves every other character alone. */
  function LowerChar(c: char): char {
    if 'A' <= c <= 'Z' then (c as int + 32) as char else c
  }

  function Lower(s: string): (r: string)
    ensures |r| == |s|
    ensures forall i :: 0 <= i < |s| ==> r[i] == LowerChar(s[i])
  {
    if |s| == 0 then "" else [LowerChar(s[0])] + Lower(s[1..])
  }

  /** `hay.includes(needle)`: the needle occurs at some offset of the hay. */
  predicate Contains(hay: string, needle: string): (b: bool)
    ensures needle <= hay ==> b
    ensures b ==> |needle| <= |hay|
  {
    needle <= hay || (|hay| > 0 && Contains(hay[1..], needle))
  }

  /** The needle sits in the hay starting at offset `k`. */
  predicate OccursAt(hay: string, needle: string, k: int) {
    0 <= k <= |hay| - |needle| && hay[k..k + |needle|] == needle
  }

  /** `includes` agrees with "the needle occurs at some offset", and every
      string includes the empty string. */
  lemma {:induction false} ContainsIffOccurs(hay: string, needle: string)
    ensures Contains(hay, needle) <==> exists k :: OccursAt(hay, needle, k)
    ensures Contains(hay, "")
  {
    assert OccursAt(hay, "", 0);
    if |hay| > 0 {
      ContainsIffOccurs(hay[1..], needle);
      if Contains(hay, needle) {
        if needle <= hay {
          assert OccursAt(hay, needle, 0);
        } else {
          var k :| OccursAt(hay[1..], needle, k);
          assert hay[1..][k..k + |needle|] == hay[k + 1..k + 1 + |needle|];
          assert OccursAt(hay, needle, k + 1);
        }
      }
      if exists k :: OccursAt(hay, needle, k) {
        var k :| OccursAt(hay, needle, k);
        if k == 0 {
          assert needle <= hay;
        } else {
          assert hay[1..][k - 1..k - 1 + |needle|] == hay[k..k + |needle|];
          assert OccursAt(hay[1..], needle, k - 1);
        }
      }
    } else {
      if exists k :: OccursAt(hay, needle, k) {
        var k :| OccursAt(hay, needle, k);
        assert needle <= hay;
      }
    }
  }

  /** `s.replace(/\s+/g, '_')`: every maximal run of whitespace becomes a
      single underscore. */
  function ReplaceWhitespaceRuns(s: string): (r: string)
    ensures NoWhitespace(r)
    ensures |r| <= |s|
  {
    ReplaceBounds(s, false);
    Replace(s, false)
  }

  /** The scan behind `ReplaceWhitespaceRuns`; `inRun` says the previous
      character was whitespace, so an underscore has already been emitted. */
  function Replace(s: string, inRun: bool): string {
    if |s| == 0 then "" else Emit(s[0], inRun) + Replace(s[1..], IsWhitespace(s[0]))
  }

  /** What the scan emits for one character: the character itself, one
      underscore for the first whitespace of a run, nothing for the rest. */
  function Emit(c: char, inRun: bool): string {
    if !IsWhitespace(c) then [c] else if inRun then "" else "_"
  }

  /** The scan emits no whitespace and never lengthens its input. */
  lemma {:induction false} ReplaceBounds(s: string, inRun: bool)
    ensures NoWhitespace(Replace(s, inRun))
    ensures |Replace(s, inRun)| <= |s|
  {
    if |s| > 0 {
      ReplaceBounds(s[1..], IsWhitespace(s[0]));
    }
  }

  /** Whether the scan is inside a run after reading all of `s`. */
  function EndsInRun(s: string, inRun: bool): bool {
    if |s| == 0 then inRun else IsWhitespace(s[|s| - 1])
  }

  /** The scan over `x + y` is the scan over `x` followed by the scan over
      `y` from the state `x` left behind. */
  lemma {:induction false} ReplaceSplits(x: string, y: string, inRun: bool)
    ensures Replace(x + y, inRun) == Replace(x, inRun) + Replace(y, EndsInRun(x, inRun))
  {
    if |x| == 0 {
      assert x + y == y;
    } else {
      var next := IsWhitespace(x[0]);
      calc {
        Replace(x + y, inRun);
      == { assert (x + y)[0] == x[0]; assert (x + y)[1..] == x[1..] + y; }
        Emit(x[0], inRun) + Replace(x[1..] + y, next);
      == { ReplaceSplits(x[1..], y, next); EndsInRunTail(x, inRun); }
        Emit(x[0], inRun) + (Replace(x[1..], next) + Replace(y, EndsInRun(x, inRun)));
      }
    }
  }

  /** Dropping the first character does not change where the scan ends. */
  lemma EndsInRunTail(x: string, inRun: bool)
    requires |x| > 0
    ensures EndsInRun(x[1..], IsWhitespace(x[0])) == EndsInRun(x, inRun)
  {
    if |x| > 1 {
      assert x[1..][|x| - 2] == x[|x| - 1];
    }
  }

  /** A word start resets the scan: the state before it does not matter. */
  lemma StartsWord(y: string, inRun: bool)
    requires |y| == 0 || !IsWhitespace(y[0])
    ensures Replace(y, inRun) == Replace(y, false)
  {
  }

  /** A name without whitespace is kept verbatim. */
  lemma {:induction false} ReplaceKeepsPlainNames(s: string)
    requires NoWhitespace(s)
    ensures ReplaceWhitespaceRuns(s) == s
  {
    if |s| > 0 {
      ReplaceKeepsPlainNames(s[1..]);
    }
  }

  /** A non-empty run of whitespace becomes exactly one underscore. */
  lemma {:induction false} ReplaceRun(w: string)
    requires |w| > 0 && AllWhitespace(w)
    ensures ReplaceWhitespaceRuns(w) == "_"
  {
    AbsorbedRun(w[1..]);
  }

  lemma {:induction false} AbsorbedRun(w: string)
    requires AllWhitespace(w)
    ensures Replace(w, true) == ""
  {
    if |w| > 0 {
      AbsorbedRun(w[1..]);
    }
  }

  /** The replacement works piecewise: splitting the name anywhere except
      inside a whitespace run splits the result the same way. With
      `ReplaceKeepsPlainNames` and `ReplaceRun` this pins the result down:
      non-whitespace characters survive in order and each run becomes one
      `_`. */
  lemma ReplaceConcat(x: string, y: string)
    requires |x| == 0 || |y| == 0 || !IsWhitespace(x[|x| - 1]) || !IsWhitespace(y[0])
    ensures ReplaceWhitespaceRuns(x + y) == ReplaceWhitespaceRuns(x) + ReplaceWhitespaceRuns(y)
  {
    ReplaceSplits(x, y, false);
    if |y| > 0 && !IsWhitespace(y[0]) {
      StartsWord(y, EndsInRun(x, false));
    }
  }

  /** Replacing twice changes nothing more. */
  lemma ReplaceIdempotent(s: string)
    ensures ReplaceWhitespaceRuns(ReplaceWhitespaceRuns(s)) == ReplaceWhitespaceRuns(s)
  {
    ReplaceKeepsPlainNames(ReplaceWhitespaceRuns(s));
  }
}
