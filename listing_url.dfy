/** The listing-URL pattern of `validateUrl` (app/page.tsx:16-28):

      /https:\/\/www\.withgarage\.com\/listing\/.+-([a-f0-9\-]{36})$/

    The pattern has no flags: it is not anchored at the start, `.` matches
    any character but a line terminator, and `$` matches only at the end of
    the input. `MatchAt` states what a match is, atom by atom; `SearchFrom`
    is the leftmost-first search that `String.prototype.match` performs; the
    lemmas connect the two and derive the shape of the accepted inputs. */
module ListingUrl {
  import opened ListingTypes

  /** The literal part of the pattern; 35 characters. */
  const ListingPrefix: string := "https://www.withgarage.com/listing/"

  /** The length of the captured identifier, `{36}`. */
  const IdLength: nat := 36

  /** The shortest input the pattern can match: the prefix, one character for
      `.+`, the `-` and the identifier. */
  const MinMatchLength: nat := 73

  /** The character class `[a-f0-9\-]`. */
  predicate IsIdChar(c: char)
  {
    ('a' <= c <= 'f') || ('0' <= c <= '9') || c == '-'
  }

  /** The characters that `.` does not match. */
  predicate IsLineTerminator(c: char)
  {
    c == '\n' || c == '\r' || c == '\U{2028}' || c == '\U{2029}'
  }

  /** The pattern matches `s` from index `i`, with `.+` taking the `k`
      characters after the prefix; the match ends at the end of `s` (`$`). */
  ghost predicate MatchAt(s: string, i: int, k: int): (b: bool)
    ensures b ==> 0 <= i && |s| >= MinMatchLength + i && s[|s| - IdLength - 1] == '-'
  {
    var p := |ListingPrefix|;
    && 0 <= i && 1 <= k
    && i + p + k + 1 + IdLength == |s|
    && s[i..i + p] == ListingPrefix
    && (forall m :: i + p <= m < i + p + k ==> !IsLineTerminator(s[m]))
    && s[i + p + k] == '-'
    && (forall m :: i + p + k + 1 <= m < |s| ==> IsIdChar(s[m]))
  }

  /** `input.match(regex)` is not null. */
  ghost predicate Matches(s: string): (b: bool)
    ensures b ==> |s| >= MinMatchLength
  {
    exists i, k :: MatchAt(s, i, k)
  }

  /** The part of the pattern after the prefix, `.+-([a-f0-9\-]{36})$`,
      against the input from index `p` on. Because `$` fixes where the group
      ends, backtracking in `.+` can only succeed with the `-` at
      `|s| - 37`. */
  predicate TailMatchesFrom(s: string, p: nat)
  {
    && p + 1 + 1 + IdLength <= |s|
    && (forall m :: p <= m < |s| - IdLength - 1 ==> !IsLineTerminator(s[m]))
    && s[|s| - IdLength - 1] == '-'
    && (forall m :: |s| - IdLength <= m < |s| ==> IsIdChar(s[m]))
  }

  /** The pattern matched from a single start index. */
  predicate MatchesFrom(s: string, i: nat)
  {
    i + |ListingPrefix| <= |s|
    && s[i..i + |ListingPrefix|] == ListingPrefix
    && TailMatchesFrom(s, i + |ListingPrefix|)
  }

  /** Leftmost-first search for a match starting at index `i` or later. */
  function SearchFrom(s: string, i: nat): (r: Option<nat>)
    ensures r.Some? ==> i <= r.value && MatchesFrom(s, r.value)
    ensures r.None? ==> forall j :: i <= j <= |s| ==> !MatchesFrom(s, j)
    decreases |s| - i
  {
    if i + |ListingPrefix| > |s| then None
    else if MatchesFrom(s, i) then Some(i)
    else SearchFrom(s, i + 1)
  }

  /** `input.match(regex)?.[1]`: the captured identifier, or `None` when the
      pattern does not match. */
  function MatchListingUrl(input: string): (id: Option<string>)
    ensures id.Some? ==> |input| >= MinMatchLength && |id.value| == IdLength
    ensures id.Some? ==> forall j :: 0 <= j < |id.value| ==> IsIdChar(id.value[j])
  {
    match SearchFrom(input, 0)
    case None => None
    // The group ends where the match ends, at the end of the input.
    case Some(_) => Some(input[|input| - IdLength..])
  }

  lemma MatchesFromGivesMatchAt(s: string, i: nat)
    requires MatchesFrom(s, i)
    ensures MatchAt(s, i, |s| - IdLength - 1 - i - |ListingPrefix|)
  {
  }

  lemma MatchAtGivesMatchesFrom(s: string, i: int, k: int)
    requires MatchAt(s, i, k)
    ensures i >= 0 && MatchesFrom(s, i)
  {
  }

  /** Whatever the engine accepts, the pattern matches. */
  lemma MatchListingUrlSound(s: string)
    requires MatchListingUrl(s).Some?
    ensures Matches(s)
  {
    var r := SearchFrom(s, 0);
    MatchesFromGivesMatchAt(s, r.value);
  }

  /** Whatever the pattern matches, the engine accepts, and the identifier
      it returns is the last 36 characters of the input, all from the class. */
  lemma MatchListingUrlComplete(s: string)
    requires Matches(s)
    ensures |s| >= MinMatchLength
    ensures MatchListingUrl(s) == Some(s[|s| - IdLength..])
    ensures forall j :: |s| - IdLength <= j < |s| ==> IsIdChar(s[j])
  {
    var i, k :| MatchAt(s, i, k);
    MatchAtGivesMatchesFrom(s, i, k);
    assert SearchFrom(s, 0).Some?;
  }

  /** The engine and the pattern agree on every input, and the identifier
      returned is the one the group captures: the last 36 characters. */
  lemma MatchListingUrlCorrect(s: string)
    ensures MatchListingUrl(s).Some? <==> Matches(s)
    ensures Matches(s) ==>
      && |s| >= MinMatchLength
      && MatchListingUrl(s) == Some(s[|s| - IdLength..])
      && (forall j :: |s| - IdLength <= j < |s| ==> IsIdChar(s[j]))
  {
    if MatchListingUrl(s).Some? {
      MatchListingUrlSound(s);
    }
    if Matches(s) {
      MatchListingUrlComplete(s);
    }
  }

  /** Whatever precedes a valid URL is ignored: the pattern has no `^`, so
      leading text (spaces included) is accepted and the identifier is
      unchanged. */
  lemma LeadingTextAccepted(t: string, s: string)
    requires MatchListingUrl(s).Some?
    ensures MatchListingUrl(t + s) == MatchListingUrl(s)
  {
    MatchListingUrlSound(s);
    MatchesShifted(t, s);
    SameSuffix(t, s, IdLength);
    SameIdentifier(t + s, s);
  }

  /** Two matching inputs that end alike yield the same identifier. */
  lemma SameIdentifier(u: string, s: string)
    requires Matches(u) && Matches(s)
    requires |s| <= |u| && u[|u| - IdLength..] == s[|s| - IdLength..]
    ensures MatchListingUrl(u) == MatchListingUrl(s)
  {
    MatchListingUrlComplete(u);
    MatchListingUrlComplete(s);
  }

  lemma MatchesShifted(t: string, s: string)
    requires Matches(s)
    ensures Matches(t + s)
  {
    var i, k :| MatchAt(s, i, k);
    MatchAtShifted(t, s, i, k);
  }

  lemma SameSuffix(t: string, s: string, n: nat)
    requires n <= |s|
    ensures (t + s)[|t + s| - n..] == s[|s| - n..]
  {
  }

  /** A match survives text put in front of the input. */
  lemma MatchAtShifted(t: string, s: string, i: int, k: int)
    requires MatchAt(s, i, k)
    ensures MatchAt(t + s, |t| + i, k)
  {
    var u := t + s;
    var p := |ListingPrefix|;
    assert u[|t| + i..|t| + i + p] == s[i..i + p];
    forall m | |t| + i + p <= m < |u|
      ensures u[m] == s[m - |t|]
    {
    }
  }

  /** Anything after the identifier that is not an identifier character,
      trailing space or newline included, makes the URL invalid. */
  lemma TrailingCharRejected(s: string, c: char)
    requires !IsIdChar(c)
    ensures MatchListingUrl(s + [c]).None?
  {
    var u := s + [c];
    assert u[|u| - 1] == c;
    MatchListingUrlCorrect(u);
  }

  /** Trailing characters from the class are not rejected: they shift the
      captured group. A URL whose identifier has `-` at index 8 (as an
      8-4-4-4-12 identifier does), followed by nine more class characters,
      still matches, and the identifier returned is the tail of the original
      one followed by the extra characters. */
  lemma TrailingIdCharsShiftIdentifier(slug: string, uuid: string, extra: string)
    requires forall m :: 0 <= m < |slug| ==> !IsLineTerminator(slug[m])
    requires |uuid| == IdLength && uuid[8] == '-'
    requires forall m :: 0 <= m < |uuid| ==> IsIdChar(uuid[m])
    requires |extra| == 9 && forall m :: 0 <= m < |extra| ==> IsIdChar(extra[m])
    ensures MatchListingUrl(ListingPrefix + slug + "-" + uuid + extra) == Some(uuid[9..] + extra)
  {
    var s := ListingPrefix + slug + "-" + uuid + extra;
    var p := |ListingPrefix|;
    var k := |slug| + 1 + 8;
    assert s[..p] == ListingPrefix;
    forall m | p <= m < p + k
      ensures !IsLineTerminator(s[m])
    {
      if m < p + |slug| {
        assert s[m] == slug[m - p];
      } else if m > p + |slug| {
        assert s[m] == uuid[m - p - |slug| - 1];
      }
    }
    assert s[p + k] == uuid[8];
    forall m | p + k + 1 <= m < |s|
      ensures IsIdChar(s[m])
    {
      if m < p + |slug| + 1 + IdLength {
        assert s[m] == uuid[m - p - |slug| - 1];
      } else {
        assert s[m] == extra[m - p - |slug| - 1 - IdLength];
      }
    }
    assert MatchAt(s, 0, k);
    MatchListingUrlComplete(s);
    assert s[|s| - IdLength..] == uuid[9..] + extra;
  }

  /** Inputs shorter than 73 characters never match. */
  lemma ShortInputRejected(s: string)
    requires |s| < MinMatchLength
    ensures MatchListingUrl(s).None?
  {
  }

  /** The identifier's 8-4-4-4-12 grouping is not checked: 36 hyphens pass. */
  lemma GroupingNotChecked()
    ensures MatchListingUrl(ListingPrefix + "x-" + "------------------------------------")
         == Some("------------------------------------")
  {
    var id := "------------------------------------";
    var s := ListingPrefix + "x-" + id;
    assert |id| == IdLength;
    assert s[..|ListingPrefix|] == ListingPrefix;
    assert s[|s| - IdLength..] == id;
    forall m | |s| - IdLength <= m < |s|
      ensures IsIdChar(s[m])
    {
      assert s[m] == id[m - (|s| - IdLength)];
    }
    assert MatchAt(s, 0, 1);
    MatchListingUrlComplete(s);
  }
}
