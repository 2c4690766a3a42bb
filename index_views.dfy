/**
 * The two small display helpers of index/views.py:
 *   - format_label(slug) = slug.replace('_', ' ').title(), which turns a
 *     stored choice such as "human_resources" into "Human Resources";
 *   - the `days_remaining` of job_details, max((deadline - today).days, 0).
 *
 * Letters are the ASCII letters: str.title() also cases other alphabets,
 * which the stored slugs never contain.
 */
module IndexViews {

  predicate IsUpper(c: char) { 'A' <= c <= 'Z' }
  predicate IsLower(c: char) { 'a' <= c <= 'z' }
  predicate IsCased(c: char) { IsUpper(c) || IsLower(c) }

  function ToUpper(c: char): (u: char)
    ensures IsCased(c) ==> IsUpper(u)
    ensures !IsLower(c) ==> u == c
  {
    if IsLower(c) then (c as int - 32) as char else c
  }

  function ToLower(c: char): (l: char)
    ensures IsCased(c) ==> IsLower(l)
    ensures !IsUpper(c) ==> l == c
  {
    if IsUpper(c) then (c as int + 32) as char else c
  }

  /** str.replace(old, new) for single characters. */
  function Replace(s: string, from: char, to: char): (r: string)
    ensures |r| == |s|
    ensures forall i :: 0 <= i < |s| ==> r[i] == (if s[i] == from then to else s[i])
  {
    if s == [] then [] else [if s[0] == from then to else s[0]] + Replace(s[1..], from, to)
  }

  /**
   * str.title() as CPython computes it: one pass, remembering whether the
   * previous character was cased; a cased character is upper-cased after an
   * uncased one and lower-cased after a cased one, anything else is kept.
   */
  function TitleFrom(s: string, previousCased: bool): string {
    if s == [] then []
    else
      var c := s[0];
      [if !IsCased(c) then c else if previousCased then ToLower(c) else ToUpper(c)]
      + TitleFrom(s[1..], IsCased(c))
  }

  function Title(s: string): string {
    TitleFrom(s, false)
  }

  /** A character starts a word when it is cased and the one before it is not. */
  predicate StartsWord(s: string, i: int)
    requires 0 <= i < |s|
  {
    IsCased(s[i]) && (i == 0 || !IsCased(s[i - 1]))
  }

  /** What title() does to position `i`, stated without the scan. */
  function TitledAt(s: string, i: int): char
    requires 0 <= i < |s|
  {
    if !IsCased(s[i]) then s[i] else if StartsWord(s, i) then ToUpper(s[i]) else ToLower(s[i])
  }

  /** What the scan produces at position `i`, given the casing before `s`. */
  function TitledFrom(s: string, previousCased: bool, i: int): char
    requires 0 <= i < |s|
  {
    var before := if i == 0 then previousCased else IsCased(s[i - 1]);
    if !IsCased(s[i]) then s[i] else if before then ToLower(s[i]) else ToUpper(s[i])
  }

  lemma {:induction false} TitleFromChars(s: string, previousCased: bool)
    ensures |TitleFrom(s, previousCased)| == |s|
    ensures forall i :: 0 <= i < |s| ==> TitleFrom(s, previousCased)[i] == TitledFrom(s, previousCased, i)
  {
    if s != [] {
      var rest := TitleFrom(s[1..], IsCased(s[0]));
      TitleFromChars(s[1..], IsCased(s[0]));
      var t := TitleFrom(s, previousCased);
      assert t == [TitledFrom(s, previousCased, 0)] + rest;
      forall i | 0 <= i < |s| ensures t[i] == TitledFrom(s, previousCased, i) {
        if i > 0 {
          assert t[i] == rest[i - 1] == TitledFrom(s[1..], IsCased(s[0]), i - 1);
          assert s[1..][i - 1] == s[i];
          if i >= 2 {
            assert s[1..][i - 2] == s[i - 1];
          }
        }
      }
    }
  }

  /** The scan agrees with the position-by-position rule. */
  lemma TitleChars(s: string)
    ensures |Title(s)| == |s|
    ensures forall i :: 0 <= i < |s| ==> Title(s)[i] == TitledAt(s, i)
  {
    TitleFromChars(s, false);
    forall i | 0 <= i < |s| ensures Title(s)[i] == TitledAt(s, i) {
      assert Title(s)[i] == TitledFrom(s, false, i);
    }
  }

  /** `format_label`: underscores become spaces, then every word is capitalised. */
  function FormatLabel(slug: string): string {
    Title(Replace(slug, '_', ' '))
  }

  /**
   * Position `i` of a label: an underscore became a space; a letter is upper
   * case exactly when it opens a word (first character, or right after a
   * non-letter) and lower case otherwise; any other character is kept.
   */
  predicate LabelledAt(slug: string, shown: string, i: int)
    requires 0 <= i < |slug| == |shown|
  {
    && (slug[i] == '_' ==> shown[i] == ' ')
    && (IsCased(slug[i]) ==> IsCased(shown[i]) && ToLower(shown[i]) == ToLower(slug[i]))
    && (IsCased(slug[i]) ==> (IsUpper(shown[i]) <==> i == 0 || !IsCased(slug[i - 1])))
    && (!IsCased(slug[i]) && slug[i] != '_' ==> shown[i] == slug[i])
  }

  lemma FormatLabelChars(slug: string)
    ensures |FormatLabel(slug)| == |slug|
    ensures forall i :: 0 <= i < |slug| ==> LabelledAt(slug, FormatLabel(slug), i)
  {
    var r := Replace(slug, '_', ' ');
    TitleChars(r);
    forall i | 0 <= i < |slug| ensures LabelledAt(slug, FormatLabel(slug), i) {
      assert FormatLabel(slug)[i] == TitledAt(r, i);
      if i > 0 {
        assert IsCased(r[i - 1]) == IsCased(slug[i - 1]);
      }
    }
  }

  /** A stored choice: lower-case letters, digits and underscores. */
  predicate IsSlug(s: string) {
    forall i :: 0 <= i < |s| ==> IsLower(s[i]) || ('0' <= s[i] <= '9') || s[i] == '_'
  }

  /** Back from a label: lower-case it and turn spaces into underscores. */
  function Unlabel(shown: string): (r: string)
    ensures |r| == |shown|
    ensures forall i :: 0 <= i < |shown| ==> r[i] == (if shown[i] == ' ' then '_' else ToLower(shown[i]))
  {
    if shown == [] then [] else [if shown[0] == ' ' then '_' else ToLower(shown[0])] + Unlabel(shown[1..])
  }

  /** No information is lost: every slug is recovered from its label. */
  lemma {:induction false} LabelRoundTrip(slug: string)
    requires IsSlug(slug)
    ensures Unlabel(FormatLabel(slug)) == slug
  {
    FormatLabelChars(slug);
    var u := Unlabel(FormatLabel(slug));
    forall i | 0 <= i < |slug| ensures u[i] == slug[i] {
      assert LabelledAt(slug, FormatLabel(slug), i);
    }
  }

  /** Labelling is stable: the label of a label is itself. */
  lemma {:induction false} FormatLabelIdempotent(slug: string)
    ensures FormatLabel(FormatLabel(slug)) == FormatLabel(slug)
  {
    var l := FormatLabel(slug);
    FormatLabelChars(slug);
    FormatLabelChars(l);
    var ll := FormatLabel(l);
    forall i | 0 <= i < |l| ensures ll[i] == l[i] {
      assert LabelledAt(slug, l, i) && LabelledAt(l, ll, i);
      if IsCased(l[i]) {
        assert IsCased(slug[i]);
        if i > 0 {
          assert LabelledAt(slug, l, i - 1);
        }
      } else {
        assert l[i] != '_';
      }
    }
  }

  /**
   * `days_remaining` in job_details: the whole days from `today` to the
   * application deadline (dates as day numbers), and 0 once it has passed.
   */
  function DaysRemaining(deadline: int, today: int): (d: nat)
    ensures d == 0 <==> deadline <= today
    ensures d > 0 ==> today + d == deadline
  {
    if deadline - today > 0 then deadline - today else 0
  }

  /** Fewer days remain as time goes on, one fewer per day until zero. */
  lemma DaysRemainingCountsDown(deadline: int, today: int, later: int)
    requires today <= later
    ensures DaysRemaining(deadline, later) <= DaysRemaining(deadline, today)
    ensures DaysRemaining(deadline, today) - DaysRemaining(deadline, later) <= later - today
  {
  }
}
