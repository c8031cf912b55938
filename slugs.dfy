/**
  * The two slug builders of the content resolver (src/data/index.ts):
  * `slugifyName`, which derives a person's slug from a display name, and
  * `makeEpisodeSlug`, which joins a series slug and an episode number.
  * Lower-casing is ASCII only.
  */
module Slugs {

  /** The characters `[a-z0-9]` that survive slugification. */
  predicate IsLowerAlnum(c: char) {
    'a' <= c <= 'z' || '0' <= c <= '9'
  }

  function LowerAscii(c: char): char {
    if 'A' <= c <= 'Z' then (c as int + 32) as char else c
  }

  /** `s.toLowerCase()` on ASCII letters. */
  function ToLower(s: string): (r: string)
    ensures |r| == |s|
    ensures forall i :: 0 <= i < |s| ==> r[i] == LowerAscii(s[i])
  {
    if s == [] then [] else [LowerAscii(s[0])] + ToLower(s[1..])
  }

  /** The `[a-z0-9]` characters of `s`, in order. */
  function Alnums(s: string): string {
    if s == [] then []
    else (if IsLowerAlnum(s[0]) then [s[0]] else []) + Alnums(s[1..])
  }

  lemma {:induction false} AlnumsAppend(a: string, b: string)
    ensures Alnums(a + b) == Alnums(a) + Alnums(b)
  {
    if a != [] {
      assert (a + b)[0] == a[0];
      assert (a + b)[1..] == a[1..] + b;
      AlnumsAppend(a[1..], b);
      var h := if IsLowerAlnum(a[0]) then [a[0]] else [];
      calc {
        Alnums(a + b);
        h + Alnums(a[1..] + b);
        h + (Alnums(a[1..]) + Alnums(b));
        (h + Alnums(a[1..])) + Alnums(b);
        Alnums(a) + Alnums(b);
      }
    } else {
      assert a + b == b;
    }
  }

  /** Drops the run of non-`[a-z0-9]` characters at the front of `s`. */
  function SkipRun(s: string): (r: string)
    ensures |r| <= |s|
    ensures r == [] || IsLowerAlnum(r[0])
  {
    if s == [] || IsLowerAlnum(s[0]) then s else SkipRun(s[1..])
  }

  lemma {:induction false} SkipRunAlnums(s: string)
    ensures Alnums(SkipRun(s)) == Alnums(s)
  {
    if s != [] && !IsLowerAlnum(s[0]) {
      SkipRunAlnums(s[1..]);
    }
  }

  /** No two adjacent hyphens. */
  ghost predicate NoDoubleHyphen(s: string) {
    forall i :: 0 <= i < |s| - 1 ==> !(s[i] == '-' && s[i + 1] == '-')
  }

  /** Every character is in `[a-z0-9-]`. */
  ghost predicate SlugChars(s: string) {
    forall i :: 0 <= i < |s| ==> IsLowerAlnum(s[i]) || s[i] == '-'
  }

  /** `s.replace(/[^a-z0-9]+/g, "-")`: each maximal run of other characters becomes one hyphen. */
  function CollapseRuns(s: string): (r: string)
    ensures |r| <= |s|
    decreases |s|
  {
    if s == [] then []
    else if IsLowerAlnum(s[0]) then [s[0]] + CollapseRuns(s[1..])
    else "-" + CollapseRuns(SkipRun(s[1..]))
  }

  /**
    * The collapse leaves only `[a-z0-9-]`, never two hyphens in a row, keeps
    * the `[a-z0-9]` characters in order, and starts with a hyphen exactly
    * when the input starts with some other character.
    */
  lemma {:induction false} CollapseRunsShape(s: string)
    ensures SlugChars(CollapseRuns(s))
    ensures NoDoubleHyphen(CollapseRuns(s))
    ensures Alnums(CollapseRuns(s)) == Alnums(s)
    ensures s == [] <==> CollapseRuns(s) == []
    ensures s != [] && IsLowerAlnum(s[0]) ==> CollapseRuns(s)[0] == s[0]
    ensures s != [] && !IsLowerAlnum(s[0]) ==> CollapseRuns(s)[0] == '-'
    decreases |s|
  {
    if s == [] {
    } else if IsLowerAlnum(s[0]) {
      CollapseRunsShape(s[1..]);
      var rest := CollapseRuns(s[1..]);
      assert Alnums(s) == [s[0]] + Alnums(s[1..]);
      assert Alnums([s[0]] + rest) == [s[0]] + Alnums(rest);
    } else {
      var t := SkipRun(s[1..]);
      CollapseRunsShape(t);
      SkipRunAlnums(s[1..]);
      var rest := CollapseRuns(t);
      assert Alnums(s) == Alnums(s[1..]);
      assert Alnums("-" + rest) == Alnums(rest);
    }
  }

  /** `s.replace(/(^-|-$)/g, "")`: drops one leading and one trailing hyphen. */
  function TrimHyphens(s: string): (r: string)
    ensures exists i, j :: 0 <= i <= 1 && |s| - 1 <= j <= |s| && i <= j && r == s[i..j]
              && (i == 1 ==> s[0] == '-') && (j == |s| - 1 ==> s[j] == '-')
  {
    var t := if |s| > 0 && s[0] == '-' then s[1..] else s;
    var i := |s| - |t|;
    if |t| > 0 && t[|t| - 1] == '-' then
      assert t[..|t| - 1] == s[i..|s| - 1];
      t[..|t| - 1]
    else
      assert t == s[i..|s|];
      t
  }

  /** `slugifyName(name)`: never longer than the name. */
  function Slugify(name: string): (r: string)
    ensures |r| <= |name|
  {
    TrimHyphens(CollapseRuns(ToLower(name)))
  }

  /** A slug: `[a-z0-9-]` only, no doubled hyphen, no hyphen at either end. */
  ghost predicate IsSlug(s: string) {
    && SlugChars(s)
    && NoDoubleHyphen(s)
    && (s != [] ==> s[0] != '-' && s[|s| - 1] != '-')
  }

  /** Dropping a leading hyphen of a collapsed string leaves one that starts with `[a-z0-9]`. */
  lemma TrimLeadingHyphen(c: string)
    requires SlugChars(c) && NoDoubleHyphen(c)
    ensures var t := if |c| > 0 && c[0] == '-' then c[1..] else c;
      && SlugChars(t) && NoDoubleHyphen(t)
      && (|t| > 0 ==> t[0] != '-')
      && Alnums(t) == Alnums(c)
  {
    if |c| > 0 && c[0] == '-' {
      var t := c[1..];
      assert forall i :: 0 <= i < |t| ==> t[i] == c[i + 1];
      if |t| > 0 {
        assert c[1] != '-';
      }
      assert c == "-" + t;
      AlnumsAppend("-", t);
    }
  }

  /** Dropping a trailing hyphen of a collapsed string that starts with `[a-z0-9]` leaves a slug. */
  lemma TrimTrailingHyphen(t: string)
    requires SlugChars(t) && NoDoubleHyphen(t)
    requires |t| > 0 ==> t[0] != '-'
    ensures var r := if |t| > 0 && t[|t| - 1] == '-' then t[..|t| - 1] else t;
      IsSlug(r) && Alnums(r) == Alnums(t)
  {
    if |t| > 0 && t[|t| - 1] == '-' {
      var r := t[..|t| - 1];
      assert forall i :: 0 <= i < |r| ==> r[i] == t[i];
      assert t[|t| - 2] != '-';
      assert t == r + "-";
      AlnumsAppend(r, "-");
    }
  }

  /** Trimming one hyphen at each end of a collapsed string leaves a slug with the same `[a-z0-9]` characters. */
  lemma TrimHyphensSlug(c: string)
    requires SlugChars(c) && NoDoubleHyphen(c)
    ensures IsSlug(TrimHyphens(c))
    ensures Alnums(TrimHyphens(c)) == Alnums(c)
  {
    TrimLeadingHyphen(c);
    TrimTrailingHyphen(if |c| > 0 && c[0] == '-' then c[1..] else c);
  }

  /** A slug is a fixed point of the hyphen collapse. */
  lemma {:induction false} CollapseRunsFixed(s: string)
    requires SlugChars(s) && NoDoubleHyphen(s)
    ensures CollapseRuns(s) == s
    decreases |s|
  {
    if s != [] {
      CollapseRunsFixed(s[1..]);
      if !IsLowerAlnum(s[0]) {
        assert s[0] == '-';
        if |s| > 1 {
          assert IsLowerAlnum(s[1..][0]);
        }
        assert SkipRun(s[1..]) == s[1..];
      }
    }
  }

  /**
    * Every name slugifies to a slug, and the slug keeps exactly the
    * `[a-z0-9]` characters of the lower-cased name, in order.
    */
  lemma SlugifyIsSlug(name: string)
    ensures IsSlug(Slugify(name))
    ensures Alnums(Slugify(name)) == Alnums(ToLower(name))
  {
    CollapseRunsShape(ToLower(name));
    TrimHyphensSlug(CollapseRuns(ToLower(name)));
  }

  /** Slugifying a slug changes nothing, so `slugifyName` is idempotent. */
  lemma SlugifyIdempotent(name: string)
    ensures Slugify(Slugify(name)) == Slugify(name)
  {
    var y := Slugify(name);
    SlugifyIsSlug(name);
    ToLowerSlug(y);
    CollapseRunsFixed(y);
    if y != [] {
      TrimHyphensNoop(y);
    }
  }

  /** Lower-casing leaves `[a-z0-9-]` characters alone. */
  lemma ToLowerSlug(s: string)
    requires SlugChars(s)
    ensures ToLower(s) == s
  {
    assert forall i :: 0 <= i < |s| ==> ToLower(s)[i] == s[i];
  }

  /** A word of `[a-z0-9]` characters passes through the collapse unchanged. */
  lemma {:induction false} CollapseRunsWord(w: string, rest: string)
    requires forall i :: 0 <= i < |w| ==> IsLowerAlnum(w[i])
    ensures CollapseRuns(w + rest) == w + CollapseRuns(rest)
  {
    if w != [] {
      var s := w + rest;
      assert s[0] == w[0] && IsLowerAlnum(s[0]);
      assert s[1..] == w[1..] + rest;
      CollapseRunsWord(w[1..], rest);
      calc {
        CollapseRuns(s);
        [s[0]] + CollapseRuns(s[1..]);
        [w[0]] + (w[1..] + CollapseRuns(rest));
        { assert w == [w[0]] + w[1..]; }
        w + CollapseRuns(rest);
      }
    } else {
      assert w + rest == rest;
    }
  }

  lemma {:induction false} SkipRunSeparator(sep: string, rest: string)
    requires forall i :: 0 <= i < |sep| ==> !IsLowerAlnum(sep[i])
    requires rest == [] || IsLowerAlnum(rest[0])
    ensures SkipRun(sep + rest) == rest
  {
    if sep != [] {
      assert (sep + rest)[0] == sep[0];
      assert (sep + rest)[1..] == sep[1..] + rest;
      SkipRunSeparator(sep[1..], rest);
    } else {
      assert sep + rest == rest;
    }
  }

  /** A run of separators before a word (or the end) becomes one hyphen. */
  lemma CollapseRunsSeparator(sep: string, rest: string)
    requires sep != [] && forall i :: 0 <= i < |sep| ==> !IsLowerAlnum(sep[i])
    requires rest == [] || IsLowerAlnum(rest[0])
    ensures CollapseRuns(sep + rest) == "-" + CollapseRuns(rest)
  {
    assert (sep + rest)[0] == sep[0];
    assert (sep + rest)[1..] == sep[1..] + rest;
    SkipRunSeparator(sep[1..], rest);
  }

  /** A word, then a run of other characters, then the rest: the run becomes one hyphen. */
  lemma CollapseWordSeparator(w: string, sep: string, rest: string)
    requires forall i :: 0 <= i < |w| ==> IsLowerAlnum(w[i])
    requires sep != [] && forall i :: 0 <= i < |sep| ==> !IsLowerAlnum(sep[i])
    requires rest == [] || IsLowerAlnum(rest[0])
    ensures CollapseRuns(w + sep + rest) == w + "-" + CollapseRuns(rest)
  {
    var tail, x := sep + rest, CollapseRuns(rest);
    assert w + sep + rest == w + tail;
    calc {
      CollapseRuns(w + tail);
      { CollapseRunsWord(w, tail); }
      w + CollapseRuns(tail);
      { CollapseRunsSeparator(sep, rest); }
      w + ("-" + x);
      w + "-" + x;
    }
  }

  /** Two words separated by a run of other characters collapse to the words joined by one hyphen. */
  lemma CollapseTwoWords(w1: string, sep: string, w2: string)
    requires forall i :: 0 <= i < |w1| ==> IsLowerAlnum(w1[i])
    requires sep != [] && forall i :: 0 <= i < |sep| ==> !IsLowerAlnum(sep[i])
    requires w2 != [] && forall i :: 0 <= i < |w2| ==> IsLowerAlnum(w2[i])
    ensures CollapseRuns(w1 + sep + w2) == w1 + "-" + w2
  {
    CollapseRunsWord(w2, "");
    assert w2 + "" == w2;
    CollapseWordSeparator(w1, sep, w2);
  }

  /** A string with no hyphen at either end is left alone by the trim. */
  lemma TrimHyphensNoop(s: string)
    requires s != [] && s[0] != '-' && s[|s| - 1] != '-'
    ensures TrimHyphens(s) == s
  {
  }

  lemma LowerExampleName(name: string, w1: string, sp: string, w2: string)
    requires name == "Ryan Rampersad"
    requires w1 == "ryan" && sp == " " && w2 == "rampersad"
    ensures ToLower(name) == w1 + sp + w2
  {
    assert w1 + sp + w2 == "ryan rampersad";
  }

  lemma JoinExampleName(w1: string, w2: string)
    requires w1 == "ryan" && w2 == "rampersad"
    ensures w1 + "-" + w2 == "ryan-rampersad"
    ensures TrimHyphens(w1 + "-" + w2) == w1 + "-" + w2
  {
  }

  lemma LowerExampleApostrophe(name: string, w: string, q: string, tail: string)
    requires name == "O'Brien-Smith"
    requires w == "o" && q == "'" && tail == "brien-smith"
    ensures ToLower(name) == w + q + tail
  {
  }

  /** The documented examples, proved through the decompositions above. */
  lemma SlugifyExampleName(name: string)
    requires name == "Ryan Rampersad"
    ensures Slugify(name) == "ryan-rampersad"
  {
    var w1, sp, w2 := "ryan", " ", "rampersad";
    LowerExampleName(name, w1, sp, w2);
    CollapseTwoWords(w1, sp, w2);
    JoinExampleName(w1, w2);
  }

  lemma CollapseExampleTail(tail: string)
    requires tail == "brien-smith"
    ensures CollapseRuns(tail) == tail
  {
    var w1, h, w2 := "brien", "-", "smith";
    assert tail == w1 + h + w2;
    CollapseTwoWords(w1, h, w2);
  }

  lemma CollapseExampleApostrophe(w: string, q: string, tail: string)
    requires w == "o" && q == "'" && tail == "brien-smith"
    ensures CollapseRuns(w + q + tail) == w + "-" + tail
  {
    CollapseExampleTail(tail);
    CollapseWordSeparator(w, q, tail);
  }

  lemma JoinExampleApostrophe(w: string, tail: string)
    requires w == "o" && tail == "brien-smith"
    ensures w + "-" + tail == "o-brien-smith"
    ensures TrimHyphens(w + "-" + tail) == w + "-" + tail
  {
  }

  lemma SlugifyExampleApostrophe(name: string)
    requires name == "O'Brien-Smith"
    ensures Slugify(name) == "o-brien-smith"
  {
    var w, q, tail := "o", "'", "brien-smith";
    LowerExampleApostrophe(name, w, q, tail);
    CollapseExampleApostrophe(w, q, tail);
    JoinExampleApostrophe(w, tail);
  }

  lemma SlugifyExampleTrim(name: string)
    requires name == "--hello--"
    ensures Slugify(name) == "hello"
  {
    var d, w := "--", "hello";
    assert ToLower(name) == d + (w + d);
    assert d + "" == d;
    CollapseRunsSeparator(d, "");
    CollapseRunsWord(w, d);
    CollapseRunsSeparator(d, w + d);
    assert "-" + (w + "-") == "-hello-";
  }

  lemma SlugifyExampleCollapse(name: string)
    requires name == "foo   bar"
    ensures Slugify(name) == "foo-bar"
  {
    var w1, sp, w2 := "foo", "   ", "bar";
    assert ToLower(name) == w1 + sp + w2;
    CollapseTwoWords(w1, sp, w2);
    assert w1 + "-" + w2 == "foo-bar";
  }

  // ---------------------------------------------------------------------------

  /** `makeEpisodeSlug(seriesSlug, number)`, which joins the two with a hyphen. */
  function EpisodeSlug(seriesSlug: string, number: string): (r: string)
    ensures |r| == |seriesSlug| + 1 + |number|
    ensures r[..|seriesSlug|] == seriesSlug && r[|seriesSlug|] == '-' && r[|seriesSlug| + 1..] == number
  {
    seriesSlug + "-" + number
  }

  /** Every episode slug contains a hyphen, whatever the series slug and number. */
  lemma EpisodeSlugHasHyphen(seriesSlug: string, number: string)
    ensures '-' in EpisodeSlug(seriesSlug, number)
  {
    assert EpisodeSlug(seriesSlug, number)[|seriesSlug|] == '-';
  }

  /**
    * The tests of `makeEpisodeSlug` expect the dashless concatenation
    * ("atn" and "1" give "atn1"); the code as written gives "atn-1".
    */
  lemma EpisodeSlugDiffersFromTests()
    ensures EpisodeSlug("atn", "1") == "atn-1" != "atn1"
    ensures EpisodeSlug("tf", "130") == "tf-130" != "tf130"
  {
  }
}
