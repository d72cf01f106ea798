/** `s.replace(/ OR /g, ' ')`, which both the page and the gateway apply to
    a keyword list to turn the news API's `OR` syntax into plain spaces. */
module OrRewrite {

  const Separator := " OR "

  /** `Separator` occurs in `s` starting at index `i`. */
  predicate OccursAt(s: string, i: int) {
    0 <= i && i + 4 <= |s| && s[i..i + 4] == Separator
  }

  predicate ContainsOr(s: string) {
    exists i :: 0 <= i <= |s| && OccursAt(s, i)
  }

  /** Every leftmost, non-overlapping `" OR "` replaced by `" "`: a global
      regular-expression replace resumes scanning after each match. The
      replacement happened at least once exactly when the text shrank, and
      it never introduces a character that was not already there. */
  function ReplaceOr(s: string): (r: string)
    ensures |r| <= |s|
    ensures ContainsOr(s) <==> |r| < |s|
    ensures forall c :: c in r ==> c in s
  {
    ContainsOrStep(s);
    if |s| == 0 then s
    else if OccursAt(s, 0) then
      assert s[0] == s[..4][0] == ' ';
      " " + ReplaceOr(s[4..])
    else
      var rest := ReplaceOr(s[1..]);
      assert forall c :: c in rest ==> c in s[1..];
      [s[0]] + rest
  }

  /** A match in `s` is either at the front or a match in `s[1..]`. */
  lemma ContainsOrStep(s: string)
    ensures |s| > 0 ==> (ContainsOr(s) <==> OccursAt(s, 0) || ContainsOr(s[1..]))
  {
    if |s| > 0 {
      if ContainsOr(s) && !OccursAt(s, 0) {
        var i :| 0 <= i <= |s| && OccursAt(s, i);
        assert i != 0 && i + 4 <= |s|;
        assert s[1..][i - 1..i + 3] == s[i..i + 4];
        assert OccursAt(s[1..], i - 1);
      }
      if ContainsOr(s[1..]) {
        var j :| 0 <= j <= |s[1..]| && OccursAt(s[1..], j);
        assert j + 4 <= |s[1..]|;
        assert s[j + 1..j + 5] == s[1..][j..j + 4];
        assert OccursAt(s, j + 1);
      }
    }
  }

  /** Text without `" OR "` passes through unchanged. */
  lemma {:induction false} ReplaceOrIdentity(s: string)
    requires !ContainsOr(s)
    ensures ReplaceOr(s) == s
  {
    ContainsOrStep(s);
    if |s| > 0 {
      ReplaceOrIdentity(s[1..]);
      assert s == [s[0]] + s[1..];
    }
  }

  /** Text without any letter `O` holds no `" OR "`. */
  lemma NoLetterONoOr(s: string)
    requires 'O' !in s
    ensures !ContainsOr(s)
  {
    forall i | 0 <= i <= |s|
      ensures !OccursAt(s, i)
    {
      if i + 4 <= |s| {
        assert s[i..i + 4][1] == s[i + 1];
      }
    }
  }

  /** A prefix without spaces cannot start a match, so it is copied. */
  lemma {:induction false} ReplaceOrSpaceFreePrefix(w: string, t: string)
    requires ' ' !in w
    ensures ReplaceOr(w + t) == w + ReplaceOr(t)
  {
    if |w| > 0 {
      var s := w + t;
      assert s[0] == w[0] != ' ';
      assert !OccursAt(s, 0);
      assert s[1..] == w[1..] + t;
      ReplaceOrSpaceFreePrefix(w[1..], t);
      assert w == [w[0]] + w[1..];
    } else {
      assert w + t == t;
    }
  }

  /** `ws` joined with `sep` between neighbours, as `Array.join` does. */
  function Join(ws: seq<string>, sep: string): string
    decreases |ws|
  {
    if |ws| == 0 then ""
    else if |ws| == 1 then ws[0]
    else ws[0] + sep + Join(ws[1..], sep)
  }

  /** A join starts with its first term. */
  lemma JoinStartsWithFirst(ws: seq<string>, sep: string)
    requires |ws| > 0
    ensures ws[0] <= Join(ws, sep)
  {
  }

  /** Joining introduces no character that neither a term nor the
      separator holds. */
  lemma {:induction false} JoinAvoids(ws: seq<string>, sep: string, c: char)
    requires c !in sep
    requires forall i :: 0 <= i < |ws| ==> c !in ws[i]
    ensures c !in Join(ws, sep)
    decreases |ws|
  {
    if |ws| > 1 {
      JoinAvoids(ws[1..], sep, c);
    }
  }

  /** On an OR-joined list of space-free terms the rewrite yields the same
      terms joined by single spaces: every separator is matched and nothing
      else is. */
  lemma {:induction false} ReplaceOrJoin(ws: seq<string>)
    requires forall i :: 0 <= i < |ws| ==> ' ' !in ws[i]
    ensures ReplaceOr(Join(ws, Separator)) == Join(ws, " ")
    decreases |ws|
  {
    if |ws| == 1 {
      ReplaceOrSpaceFreePrefix(ws[0], "");
      assert ws[0] + "" == ws[0];
      assert ReplaceOr("") == "";
    } else if |ws| > 1 {
      var tail := Join(ws[1..], Separator);
      var s := Separator + tail;
      assert OccursAt(s, 0);
      assert s[4..] == tail;
      assert ReplaceOr(s) == " " + ReplaceOr(tail);
      ReplaceOrJoin(ws[1..]);
      ReplaceOrSpaceFreePrefix(ws[0], s);
      assert Join(ws, Separator) == ws[0] + s;
    }
  }

  /** The rewrite is not idempotent in general: `" OR OR "` becomes
      `" OR "`, which still holds a separator. */
  lemma ReplaceOrNotIdempotent()
    ensures ReplaceOr(" OR OR ") == " OR "
    ensures ReplaceOr(ReplaceOr(" OR OR ")) == " "
  {
    assert " OR OR "[4..] == "OR ";
  }
}
