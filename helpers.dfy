/**
 * The client's string helpers: the URL slug derived from a recipe title, and
 * the name/amount pairs a form is seeded with from a recipe's ingredients.
 *
 * `generateSlug` lower-cases the title, replaces every maximal run of
 * characters outside [a-z0-9] by one '-', then drops one '-' at the start and
 * one at the end. The lemmas show that the result is exactly the title's
 * words (maximal runs of [a-z0-9]) joined by single dashes.
 */
module Helpers {
  import opened Wrappers
  import opened Text
  import opened Sequences
  import opened ClientTypes

  /** `[a-z0-9]` */
  predicate IsSlugAlnum(c: char) { IsLowerAscii(c) || IsDigit(c) }

  /** The length of the prefix of characters in [a-z0-9]. */
  function AlnumRun(s: string): (n: nat)
    ensures n <= |s|
    ensures forall i :: 0 <= i < n ==> IsSlugAlnum(s[i])
    ensures n < |s| ==> !IsSlugAlnum(s[n])
    ensures s != [] && IsSlugAlnum(s[0]) ==> n >= 1
  {
    if s == [] || !IsSlugAlnum(s[0]) then 0 else 1 + AlnumRun(s[1..])
  }

  /** The length of the prefix of characters outside [a-z0-9]. */
  function OtherRun(s: string): (n: nat)
    ensures n <= |s|
    ensures forall i :: 0 <= i < n ==> !IsSlugAlnum(s[i])
    ensures n < |s| ==> IsSlugAlnum(s[n])
    ensures s != [] && !IsSlugAlnum(s[0]) ==> n >= 1
  {
    if s == [] || IsSlugAlnum(s[0]) then 0 else 1 + OtherRun(s[1..])
  }

  /** `.replace(/[^a-z0-9]+/g, '-')`: letters and digits are kept, each maximal run of others becomes one '-'. */
  function Dashify(s: string): string
    decreases |s|
  {
    if s == [] then []
    else if IsSlugAlnum(s[0]) then [s[0]] + Dashify(s[1..])
    else "-" + Dashify(s[OtherRun(s)..])
  }

  /** `.replace(/(^-|-$)/g, '')`: one '-' at the start and one at the end are removed. */
  function StripDashes(s: string): string {
    var t := if |s| > 0 && s[0] == '-' then s[1..] else s;
    if |t| > 0 && t[|t| - 1] == '-' then t[..|t| - 1] else t
  }

  /**
   * `generateSlug`: the words of the lower-cased title joined by single
   * dashes, so only `[a-z0-9]` and '-', no '-' at either end and no two in a
   * row.
   */
  function GenerateSlug(title: string): (slug: string)
    ensures slug == JoinDash(Words(Lower(title)))
    ensures IsSlug(slug)
  {
    StripDashifyWords(Lower(title));
    JoinDashIsSlug(Words(Lower(title)));
    StripDashes(Dashify(Lower(title)))
  }

  // ---------------------------------------------------------------------------
  // Reference definition: words joined by dashes

  predicate IsWord(w: string) {
    w != [] && forall i :: 0 <= i < |w| ==> IsSlugAlnum(w[i])
  }

  /** The maximal runs of [a-z0-9] in `s`, in order. */
  function Words(s: string): (ws: seq<string>)
    ensures forall k :: 0 <= k < |ws| ==> IsWord(ws[k])
    ensures s != [] && IsSlugAlnum(s[0]) ==> ws != [] && ws[0] == s[..AlnumRun(s)]
    decreases |s|
  {
    if s == [] then []
    else if !IsSlugAlnum(s[0]) then Words(s[OtherRun(s)..])
    else [s[..AlnumRun(s)]] + Words(s[AlnumRun(s)..])
  }

  /** `words.join('-')`, with no words giving "". */
  function JoinDash(ws: seq<string>): string {
    if ws == [] then "" else Join(ws, '-')
  }

  /** The form of a slug: only [a-z0-9] and '-', no '-' at either end, no two '-' in a row. */
  predicate IsSlug(s: string) {
    (forall i :: 0 <= i < |s| ==> IsSlugAlnum(s[i]) || s[i] == '-')
    && (s != [] ==> s[0] != '-' && s[|s| - 1] != '-')
    && (forall i :: 0 <= i < |s| - 1 ==> !(s[i] == '-' && s[i + 1] == '-'))
  }

  /** `"-"` when `s` ends outside [a-z0-9], else "": the dash `Dashify` leaves at the end. */
  function TrailingDash(s: string): string {
    if s != [] && !IsSlugAlnum(s[|s| - 1]) then "-" else ""
  }

  /** Joining two or more words puts a dash after the first. */
  lemma JoinDashCons(w: string, ws: seq<string>)
    requires ws != []
    ensures JoinDash([w] + ws) == w + "-" + JoinDash(ws)
  {
    assert ([w] + ws)[1..] == ws;
  }

  /** Words joined by dashes have the form of a slug, and start with the first word's first letter. */
  lemma {:induction false} JoinDashIsSlug(ws: seq<string>)
    requires forall k :: 0 <= k < |ws| ==> IsWord(ws[k])
    ensures IsSlug(JoinDash(ws))
    ensures ws != [] ==> JoinDash(ws) != [] && JoinDash(ws)[0] == ws[0][0]
  {
    if |ws| == 1 {
      assert JoinDash(ws) == ws[0];
    } else if |ws| > 1 {
      var w, rest := ws[0], ws[1..];
      assert ws == [w] + rest;
      JoinDashCons(w, rest);
      JoinDashIsSlug(rest);
      var j := JoinDash(rest);
      var s := w + "-" + j;
      assert s == JoinDash(ws);
      forall i | 0 <= i < |s| - 1 ensures !(s[i] == '-' && s[i + 1] == '-') {
        if i + 1 < |w| {
        } else if i + 1 == |w| {
          assert s[i] == w[i];
        } else if i + 1 == |w| + 1 {
          assert s[i + 1] == j[0];
        } else {
          assert s[i] == j[i - |w| - 1] && s[i + 1] == j[i - |w|];
        }
      }
      forall i | 0 <= i < |s| ensures IsSlugAlnum(s[i]) || s[i] == '-' {
        if i > |w| {
          assert s[i] == j[i - |w| - 1];
        }
      }
    }
  }

  /** The words of a word followed by a dash-joined tail are that word and the tail's words. */
  lemma WordsAfterWord(w: string, tail: string)
    requires IsWord(w) && (tail == [] || !IsSlugAlnum(tail[0]))
    ensures Words(w + tail) == [w] + Words(tail)
  {
    var s := w + tail;
    AlnumRunOfWord(w, tail);
    assert s[..|w|] == w && s[|w|..] == tail;
  }

  lemma {:induction false} AlnumRunOfWord(w: string, tail: string)
    requires forall i :: 0 <= i < |w| ==> IsSlugAlnum(w[i])
    requires tail == [] || !IsSlugAlnum(tail[0])
    ensures AlnumRun(w + tail) == |w|
  {
    if w != [] {
      assert (w + tail)[1..] == w[1..] + tail;
      AlnumRunOfWord(w[1..], tail);
    } else {
      assert w + tail == tail;
    }
  }

  /** Splitting dash-joined words into words gives the words back. */
  lemma {:induction false} WordsOfJoinDash(ws: seq<string>)
    requires forall k :: 0 <= k < |ws| ==> IsWord(ws[k])
    ensures Words(JoinDash(ws)) == ws
  {
    if |ws| == 1 {
      assert JoinDash(ws) == ws[0] + [];
      WordsAfterWord(ws[0], []);
    } else if |ws| > 1 {
      var w, rest := ws[0], ws[1..];
      assert ws == [w] + rest;
      JoinDashCons(w, rest);
      JoinDashIsSlug(rest);
      var j := JoinDash(rest);
      assert w + "-" + j == w + ("-" + j);
      WordsAfterWord(w, "-" + j);
      assert OtherRun("-" + j) == 1 by {
        assert ("-" + j)[1..] == j;
      }
      assert ("-" + j)[1..] == j;
      WordsOfJoinDash(rest);
    }
  }

  /** `Dashify` copies a leading run of letters and digits unchanged. */
  lemma {:induction false} DashifyAlnumPrefix(s: string)
    ensures Dashify(s) == s[..AlnumRun(s)] + Dashify(s[AlnumRun(s)..])
    decreases |s|
  {
    if s != [] && IsSlugAlnum(s[0]) {
      var n := AlnumRun(s);
      DashifyAlnumPrefix(s[1..]);
      assert AlnumRun(s[1..]) == n - 1;
      ShiftSlices(s, n);
      ConsAssoc(s[0], s[1..n], Dashify(s[n..]));
    }
  }

  lemma ShiftSlices<T>(s: seq<T>, n: nat)
    requires 1 <= n <= |s|
    ensures s[1..][..n - 1] == s[1..n] && s[1..][n - 1..] == s[n..] && [s[0]] + s[1..n] == s[..n]
  {
  }

  lemma ConsAssoc<T>(c: T, p: seq<T>, d: seq<T>)
    ensures [c] + (p + d) == ([c] + p) + d
  {
  }

  /** A leading run outside [a-z0-9] becomes one dash, and contributes no word. */
  lemma DashifyOtherPrefix(r: string)
    requires r != [] && !IsSlugAlnum(r[0])
    ensures Dashify(r) == "-" + Dashify(r[OtherRun(r)..])
    ensures Words(r) == Words(r[OtherRun(r)..])
  {
  }

  /** The trailing dash depends only on the last character. */
  lemma TrailingDashOfSuffix(s: string, k: nat)
    requires k < |s|
    ensures TrailingDash(s[k..]) == TrailingDash(s)
  {
    assert s[k..][|s| - k - 1] == s[|s| - 1];
  }

  /** On a string that starts with a letter or digit, `Dashify` is its words joined by dashes, plus a trailing dash when it ends with other characters. */
  lemma {:induction false} DashifyWords(s: string)
    requires s == [] || IsSlugAlnum(s[0])
    ensures Dashify(s) == JoinDash(Words(s)) + TrailingDash(s)
    decreases |s|
  {
    if s != [] {
      var n := AlnumRun(s);
      var w, r := s[..n], s[n..];
      DashifyAlnumPrefix(s);
      assert Words(s) == [w] + Words(r);
      if r == [] {
        DashifyWordsSingle(s);
      } else {
        var s' := r[OtherRun(r)..];
        DashifyOtherPrefix(r);
        DashifyWords(s');
        DashifyWordsStep(s, w, r, s');
      }
    }
  }

  /** `DashifyWords` for a single word. */
  lemma DashifyWordsSingle(s: string)
    requires s != [] && IsSlugAlnum(s[0]) && AlnumRun(s) == |s|
    ensures Dashify(s) == JoinDash(Words(s)) + TrailingDash(s)
  {
    DashifyAlnumPrefix(s);
    assert s[..|s|] == s;
    assert s[|s|..] == [];
    assert Words(s) == [s] + Words([]);
    assert JoinDash([s]) == s;
  }

  /** `DashifyWords` for a word `w`, then a run `r` outside [a-z0-9], then the rest `s'`. */
  lemma DashifyWordsStep(s: string, w: string, r: string, s': string)
    requires s != [] && IsSlugAlnum(s[0])
    requires w == s[..AlnumRun(s)] && r == s[AlnumRun(s)..] && r != []
    requires s' == r[OtherRun(r)..] && (s' == [] || IsSlugAlnum(s'[0]))
    requires Dashify(s) == w + Dashify(r)
    requires Words(s) == [w] + Words(r)
    requires Dashify(r) == "-" + Dashify(s') && Words(r) == Words(s')
    requires Dashify(s') == JoinDash(Words(s')) + TrailingDash(s')
    ensures Dashify(s) == JoinDash(Words(s)) + TrailingDash(s)
  {
    if s' == [] {
      LastWordStep(s, w, r);
    } else {
      MoreWordsStep(s, w, r, s');
    }
  }

  /** The last word, followed only by other characters: it is joined alone and gets the trailing dash. */
  lemma LastWordStep(s: string, w: string, r: string)
    requires s != [] && w == s[..AlnumRun(s)] && r == s[AlnumRun(s)..] && r != []
    requires OtherRun(r) == |r|
    requires Dashify(s) == w + "-" && Words(s) == [w]
    ensures Dashify(s) == JoinDash(Words(s)) + TrailingDash(s)
  {
    assert JoinDash([w]) == w;
    assert !IsSlugAlnum(r[|r| - 1]);
    assert s[|s| - 1] == r[|r| - 1];
    assert TrailingDash(s) == "-";
  }

  /** A word followed by more words: one dash joins it to the rest. */
  lemma MoreWordsStep(s: string, w: string, r: string, s': string)
    requires s != [] && IsSlugAlnum(s[0])
    requires w == s[..AlnumRun(s)] && r == s[AlnumRun(s)..] && r != []
    requires s' == r[OtherRun(r)..] && s' != [] && IsSlugAlnum(s'[0])
    requires Dashify(s) == w + ("-" + Dashify(s')) && Words(s) == [w] + Words(s')
    requires Dashify(s') == JoinDash(Words(s')) + TrailingDash(s')
    ensures Dashify(s) == JoinDash(Words(s)) + TrailingDash(s)
  {
    var ws := Words(s');
    var k := AlnumRun(s) + OtherRun(r);
    assert s' == s[k..];
    TrailingDashOfSuffix(s, k);
    JoinDashCons(w, ws);
    ConcatAssoc(w, JoinDash(ws), TrailingDash(s));
  }

  lemma ConcatAssoc(w: string, j: string, t: string)
    ensures w + ("-" + (j + t)) == (w + "-" + j) + t
  {
  }

  /** Dropping a dash before and after a slug gives the slug. */
  lemma StripAround(lead: string, j: string, tail: string)
    requires lead == "" || lead == "-"
    requires tail == "" || tail == "-"
    requires j == [] || (j[0] != '-' && j[|j| - 1] != '-')
    ensures StripDashes(lead + j + tail) == j
  {
    var s := lead + j + tail;
    if j == [] {
      assert s == lead + tail;
    } else {
      var t := if |s| > 0 && s[0] == '-' then s[1..] else s;
      assert t == j + tail;
      if tail == "-" {
        assert t[..|t| - 1] == j;
      }
    }
  }

  /** Dashifying and stripping gives the words joined by dashes. */
  lemma StripDashifyWords(s: string)
    ensures StripDashes(Dashify(s)) == JoinDash(Words(s))
  {
    if s == [] {
    } else if IsSlugAlnum(s[0]) {
      StripDashifyFromWord(s);
    } else {
      StripDashifyFromOther(s);
    }
  }

  lemma StripDashifyFromWord(s: string)
    requires s != [] && IsSlugAlnum(s[0])
    ensures StripDashes(Dashify(s)) == JoinDash(Words(s))
  {
    var j, t := JoinDash(Words(s)), TrailingDash(s);
    DashifyWords(s);
    JoinDashIsSlug(Words(s));
    StripAround("", j, t);
    assert "" + j + t == j + t;
  }

  lemma StripDashifyFromOther(s: string)
    requires s != [] && !IsSlugAlnum(s[0])
    ensures StripDashes(Dashify(s)) == JoinDash(Words(s))
  {
    var s' := s[OtherRun(s)..];
    var j := JoinDash(Words(s'));
    var t := TrailingDash(s');
    DashifyFromOther(s);
    JoinDashIsSlug(Words(s'));
    StripAround("-", j, t);
  }

  lemma DashifyFromOther(s: string)
    requires s != [] && !IsSlugAlnum(s[0])
    ensures Dashify(s) == "-" + JoinDash(Words(s[OtherRun(s)..])) + TrailingDash(s[OtherRun(s)..])
    ensures Words(s) == Words(s[OtherRun(s)..])
  {
    var s' := s[OtherRun(s)..];
    var j, t := JoinDash(Words(s')), TrailingDash(s');
    DashifyOtherPrefix(s);
    DashifyWords(s');
    DashThen(Dashify(s), Dashify(s'), j, t);
  }

  lemma DashThen(d: string, rest: string, j: string, t: string)
    requires d == "-" + rest && rest == j + t
    ensures d == "-" + j + t
  {
  }

  // ---------------------------------------------------------------------------
  // Properties of generateSlug

  /** Generating a slug from a slug changes nothing. */
  lemma GenerateSlugIdempotent(title: string)
    ensures GenerateSlug(GenerateSlug(title)) == GenerateSlug(title)
  {
    var ws := Words(Lower(title));
    var slug := GenerateSlug(title);
    JoinDashIsSlug(ws);
    assert Lower(slug) == slug;
    WordsOfJoinDash(ws);
  }

  /** A string without letters or digits has no words. */
  lemma NoWords(s: string)
    requires forall i :: 0 <= i < |s| ==> !IsSlugAlnum(s[i])
    ensures Words(s) == []
  {
    if s != [] {
      assert OtherRun(s) == |s|;
      assert s[|s|..] == [];
    }
  }

  /** A title with no ASCII letter or digit gives the empty slug. */
  lemma SlugOfNoAlnum(title: string)
    requires forall i :: 0 <= i < |title| ==> !IsAlnum(title[i])
    ensures GenerateSlug(title) == ""
  {
    NoWords(Lower(title));
  }

  /** All words concatenated. */
  function Concat(ws: seq<string>): string {
    if ws == [] then "" else ws[0] + Concat(ws[1..])
  }

  lemma {:induction false} FilterWords(s: string)
    ensures Filter(s, IsSlugAlnum) == Concat(Words(s))
    decreases |s|
  {
    if s != [] {
      if !IsSlugAlnum(s[0]) {
        var m := OtherRun(s);
        assert s == s[..m] + s[m..];
        FilterAppend(s[..m], s[m..], IsSlugAlnum);
        FilterNone(s[..m], IsSlugAlnum);
        FilterWords(s[m..]);
      } else {
        var n := AlnumRun(s);
        assert s == s[..n] + s[n..];
        FilterAppend(s[..n], s[n..], IsSlugAlnum);
        FilterAll(s[..n], IsSlugAlnum);
        FilterWords(s[n..]);
        assert ([s[..n]] + Words(s[n..]))[1..] == Words(s[n..]);
      }
    }
  }

  /** Filtering a word, then a dash, then more keeps the word and the rest's letters. */
  lemma FilterWordDash(w: string, j: string)
    requires IsWord(w)
    ensures Filter(w + "-" + j, IsSlugAlnum) == w + Filter(j, IsSlugAlnum)
  {
    var a := w + "-";
    FilterAppend(a, j, IsSlugAlnum);
    FilterAppend(w, "-", IsSlugAlnum);
    FilterAll(w, IsSlugAlnum);
    assert Filter("-", IsSlugAlnum) == [] by {
      FilterNone("-", IsSlugAlnum);
    }
    assert Filter(a, IsSlugAlnum) == w;
  }

  lemma {:induction false} FilterJoinDash(ws: seq<string>)
    requires forall k :: 0 <= k < |ws| ==> IsWord(ws[k])
    ensures Filter(JoinDash(ws), IsSlugAlnum) == Concat(ws)
  {
    if |ws| == 1 {
      FilterAll(ws[0], IsSlugAlnum);
      assert JoinDash(ws) == ws[0];
      assert Concat(ws) == ws[0] + Concat([]);
    } else if |ws| > 1 {
      var w, rest := ws[0], ws[1..];
      JoinDashCons(w, rest);
      assert [w] + rest == ws;
      FilterWordDash(w, JoinDash(rest));
      FilterJoinDash(rest);
      assert Concat(ws) == w + Concat(rest);
    }
  }

  /** The slug keeps exactly the letters and digits of the lower-cased title, in order. */
  lemma SlugKeepsAlnums(title: string)
    ensures Filter(GenerateSlug(title), IsSlugAlnum) == Filter(Lower(title), IsSlugAlnum)
  {
    FilterJoinDash(Words(Lower(title)));
    FilterWords(Lower(title));
  }

  // ---------------------------------------------------------------------------
  // formatIngredients

  /** A form row before it is given an id. */
  datatype NameAmount = NameAmount(name: string, amount: string)

  /** `formatIngredients`: each ingredient's type name ("" without a type) and its amount, in order. */
  function FormatIngredients(ings: seq<ServerIngredient>): (r: seq<NameAmount>)
    ensures |r| == |ings|
    ensures forall i :: 0 <= i < |ings| ==>
              r[i].amount == ings[i].amount
              && r[i].name == (if ings[i].typ.Some? then ings[i].typ.value.name else "")
  {
    seq(|ings|, i requires 0 <= i < |ings| =>
      NameAmount(if ings[i].typ.Some? && ings[i].typ.value.name != "" then ings[i].typ.value.name else "", ings[i].amount))
  }

  /** Formatting works element by element, so it distributes over concatenation. */
  lemma FormatIngredientsAppend(a: seq<ServerIngredient>, b: seq<ServerIngredient>)
    ensures FormatIngredients(a + b) == FormatIngredients(a) + FormatIngredients(b)
  {
  }

  /** An ingredient's own `name` field is never used: only its type's name is. */
  lemma FormatIgnoresOwnName(ing: ServerIngredient, other: string)
    ensures FormatIngredients([ing]) == FormatIngredients([ing.(name := other)])
  {
  }
}
