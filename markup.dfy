/**
 * The post-description excerpt: `description.replace(/<[^>]+>/g, "")`,
 * cut to 180 characters and followed by "...".
 */
module Markup {

  import opened JsValues

  /** The first index at or after `i` that holds '>', or |s| when there is none. */
  function CloseIndex(s: string, i: nat): (k: nat)
    requires i <= |s|
    ensures i <= k <= |s|
    ensures k < |s| ==> s[k] == '>'
    decreases |s| - i
  {
    if i == |s| || s[i] == '>' then i else CloseIndex(s, i + 1)
  }

  /** No '>' lies between `i` and the index `CloseIndex` finds. */
  lemma {:induction false} CloseIndexFirst(s: string, i: nat)
    requires i <= |s|
    ensures forall j :: i <= j < CloseIndex(s, i) ==> s[j] != '>'
    decreases |s| - i
  {
    if i < |s| && s[i] != '>' {
      CloseIndexFirst(s, i + 1);
    }
  }

  /**
   * A match of `<[^>]+>` begins at the start of `s`: a '<', then at least one
   * character other than '>', then a '>' somewhere after.
   */
  predicate TagStarts(s: string)
  {
    |s| >= 3 && s[0] == '<' && s[1] != '>' && exists k :: 2 <= k < |s| && s[k] == '>'
  }

  /**
   * The length of the match of `<[^>]+>` at the start of `s`, or 0. Since
   * `[^>]` cannot cross a '>', the match always ends at the first '>'.
   */
  function TagLength(s: string): (n: nat)
    ensures n <= |s|
    ensures n > 0 ==> n >= 3 && s[0] == '<' && s[n - 1] == '>'
  {
    if |s| == 0 || s[0] != '<' then 0
    else
      var k := CloseIndex(s, 1);
      if 1 < k < |s| then k + 1 else 0
  }

  /** `TagLength` finds a match exactly when one starts, and the match ends at the first '>'. */
  lemma TagLengthMatches(s: string)
    ensures TagLength(s) > 0 <==> TagStarts(s)
    ensures TagLength(s) > 0 ==> forall j :: 1 <= j < TagLength(s) - 1 ==> s[j] != '>'
  {
    if |s| > 0 {
      CloseIndexFirst(s, 1);
    }
  }

  /** The global replace: scan left to right, drop each match, keep every other character. */
  function StripTags(s: string): (r: string)
    ensures |r| <= |s|
    decreases |s|
  {
    if s == [] then []
    else
      var n := TagLength(s);
      if n > 0 then StripTags(s[n..]) else [s[0]] + StripTags(s[1..])
  }

  /** No match of `<[^>]+>` starts anywhere in `t`. */
  predicate Clean(t: string)
    decreases |t|
  {
    t == [] || (!TagStarts(t) && Clean(t[1..]))
  }

  /** Stripping only removes characters; it never invents one. */
  lemma {:induction false} StripTagsKeepsChars(s: string, c: char)
    ensures c in StripTags(s) ==> c in s
    decreases |s|
  {
    if s != [] {
      var n := TagLength(s);
      var rest := if n > 0 then s[n..] else s[1..];
      StripTagsKeepsChars(rest, c);
      assert multiset(rest) <= multiset(s) by {
        assert s == s[..|s| - |rest|] + rest;
      }
    }
  }

  /** Text with no tag in it is left as it is. */
  lemma {:induction false} CleanUnchanged(t: string)
    requires Clean(t)
    ensures StripTags(t) == t
    decreases |t|
  {
    if t != [] {
      CleanUnchanged(t[1..]);
    }
  }

  /** Text without a '<' is left as it is. */
  lemma {:induction false} NoOpenBracketUnchanged(t: string)
    requires '<' !in t
    ensures StripTags(t) == t
    decreases |t|
  {
    if t != [] {
      assert t[0] != '<';
      NoOpenBracketUnchanged(t[1..]);
    }
  }

  /** The result contains no tag: every '<' it keeps is followed by '>' or by no '>' at all. */
  lemma {:induction false} StripTagsClean(s: string)
    ensures Clean(StripTags(s))
    decreases |s|
  {
    if s != [] {
      var n := TagLength(s);
      if n > 0 {
        StripTagsClean(s[n..]);
      } else {
        var rest := StripTags(s[1..]);
        var r := [s[0]] + rest;
        StripTagsClean(s[1..]);
        TagLengthMatches(s);
        TagLengthMatches(r);
        assert r[1..] == rest;
        if s[0] == '<' {
          if |s| > 1 && s[1] == '>' {
            assert TagLength(s[1..]) == 0;
            assert rest[0] == '>';
            assert r[1] == '>';
          } else {
            assert forall j :: 1 <= j < |s| ==> s[j] != '>';
            StripTagsKeepsChars(s[1..], '>');
            assert '>' !in rest;
          }
        }
        assert !TagStarts(r);
      }
    }
  }

  /** Stripping twice is the same as stripping once. */
  lemma StripTagsIdempotent(s: string)
    ensures StripTags(StripTags(s)) == StripTags(s)
  {
    StripTagsClean(s);
    CleanUnchanged(StripTags(s));
  }

  /** From `i` on there is no '>', so `CloseIndex` runs to the end. */
  lemma {:induction false} CloseIndexNone(s: string, i: nat)
    requires i <= |s|
    requires forall j :: i <= j < |s| ==> s[j] != '>'
    ensures CloseIndex(s, i) == |s|
    decreases |s| - i
  {
    if i < |s| {
      CloseIndexNone(s, i + 1);
    }
  }

  /** Appending a tail without '>' does not move a '>' that `CloseIndex` found in front of it. */
  lemma {:induction false} CloseIndexTail(u: string, t: string, i: nat)
    requires i <= |u| && '>' !in t
    ensures CloseIndex(u + t, i) == (if CloseIndex(u, i) < |u| then CloseIndex(u, i) else |u| + |t|)
    decreases |u| - i
  {
    if i == |u| {
      forall j | |u| <= j < |u + t| ensures (u + t)[j] != '>' {
        assert (u + t)[j] == t[j - |u|];
      }
      CloseIndexNone(u + t, |u|);
    } else if u[i] != '>' {
      CloseIndexTail(u, t, i + 1);
    }
  }

  /** Text without '>' contains no tag. */
  lemma {:induction false} NoCloseBracketClean(t: string)
    requires '>' !in t
    ensures Clean(t)
    decreases |t|
  {
    if t != [] {
      assert !TagStarts(t);
      NoCloseBracketClean(t[1..]);
    }
  }

  /** A bare "<>" is not a tag: it is kept, whatever follows it. */
  lemma BareBracketsKept(s: string)
    ensures StripTags("<>" + s) == "<>" + StripTags(s)
  {
    var t := "<>" + s;
    assert CloseIndex(t, 1) == 1;
    assert TagLength(t) == 0;
    assert t[1..] == ">" + s;
    assert TagLength(">" + s) == 0;
    assert (">" + s)[1..] == s;
  }

  /**
   * A '<' with no later '>' is not a tag: a tail containing no '>' is kept as
   * it is, whatever precedes it.
   */
  lemma {:induction false} UnclosedTailKept(u: string, t: string)
    requires '>' !in t
    ensures StripTags(u + t) == StripTags(u) + t
    decreases |u|
  {
    if u == [] {
      assert u + t == t;
      NoCloseBracketClean(t);
      CleanUnchanged(t);
    } else {
      var n := TagLength(u);
      var w := u + t;
      if u[0] == '<' {
        CloseIndexTail(u, t, 1);
      }
      assert TagLength(w) == n;
      if n > 0 {
        assert w[n..] == u[n..] + t;
        UnclosedTailKept(u[n..], t);
      } else {
        assert w[1..] == u[1..] + t;
        UnclosedTailKept(u[1..], t);
      }
    }
  }

  /** A bare "<>" and a '<' with no later '>' are not tags and are kept. */
  lemma UnmatchedBracketsKept()
    ensures StripTags("<>") == "<>"
    ensures StripTags("a<b") == "a<b"
    ensures StripTags("<b>x</b>") == "x"
  {
    NoOpenBracketUnchanged(">");
    assert StripTags("<>") == ['<'] + StripTags(">");
    NoOpenBracketUnchanged("b");
    assert StripTags("<b") == ['<'] + StripTags("b");
    assert StripTags("a<b") == ['a'] + StripTags("<b");
    assert TagLength("<b>x</b>") == 3;
    assert "<b>x</b>"[3..] == "x</b>";
    assert TagLength("</b>") == 4;
    assert "x</b>"[1..] == "</b>";
    assert StripTags("</b>") == StripTags([]);
  }

  const ExcerptLength := 180
  const Ellipsis := "..."

  /**
   * The rendered description: "" for a missing or empty description, else the
   * first 180 characters of the stripped text followed by "...".
   */
  function Excerpt(description: Option<string>): (r: string)
    ensures !Truthy(description) ==> r == ""
    ensures Truthy(description) ==> |Ellipsis| <= |r| <= ExcerptLength + |Ellipsis|
  {
    if Truthy(description) then
      var text := StripTags(description.value);
      (if |text| <= ExcerptLength then text else text[..ExcerptLength]) + Ellipsis
    else ""
  }

  /**
   * A present description gives a prefix of its stripped text, of length
   * min(180, length of the text), followed by "...", even when the text is short.
   */
  lemma ExcerptShape(description: string)
    requires description != ""
    ensures var r := Excerpt(Some(description));
      var text := StripTags(description);
      |r| == (if |text| < ExcerptLength then |text| else ExcerptLength) + |Ellipsis|
      && r[..|r| - |Ellipsis|] <= text
      && r[|r| - |Ellipsis|..] == Ellipsis
  {
  }

  /** Stripped text longer than 180 characters is cut to exactly its first 180. */
  lemma ExcerptOfLongText(description: string)
    requires |StripTags(description)| > ExcerptLength
    ensures Excerpt(Some(description)) == StripTags(description)[..ExcerptLength] + Ellipsis
  {
  }
}
