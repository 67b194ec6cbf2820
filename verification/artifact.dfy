/**
 * Artifact extraction and transcript masking in the chat client.
 *
 * The client takes the generated page out of a finished assistant message
 * with the non-global, lazy pattern  ```html\n([\s\S]*?)\n```  and shows every
 * message with each such block (matched globally) replaced by a fixed
 * placeholder. A regular-expression match of that pattern is the leftmost
 * opening fence followed by the first closing fence after it: if the leftmost
 * opening fence has no closing fence after it, no later opening fence has
 * one either, so no other start position can match. Both operations are
 * written here as string searches with that meaning.
 */
module Artifact {
  import opened Wrappers
  import opened JsStrings

  /** The opening fence: three backticks, the language tag `html`, a line break. */
  const Open: string := "```html\n"
  /** The closing fence: a line break and three backticks. */
  const Close: string := "\n```"
  /**
   * The text shown in place of a code block: the sparkle glyph as the source
   * file spells it (U+00E2 U+0153 U+00A8, a mis-decoded UTF-8 sequence)
   * followed by " HTML Code Generated".
   */
  const Placeholder: string := "\U{E2}\U{153}\U{A8} HTML Code Generated"

  /** Where a match lies: the index of its opening fence and of its closing fence. */
  datatype Fence = Fence(open: nat, close: nat)

  /** `s` holds a complete fenced block: an opening fence and, after it, a closing fence. */
  ghost predicate HasBlock(s: string) {
    exists j, k :: Occurs(s, Open, j) && j + |Open| <= k && Occurs(s, Close, k)
  }

  /** `s` has no opening fence anywhere. */
  ghost predicate NoOpen(s: string) {
    forall j :: !Occurs(s, Open, j)
  }

  /** `s` has no closing fence anywhere. */
  ghost predicate NoClose(s: string) {
    forall k :: !Occurs(s, Close, k)
  }

  /**
   * The first match of the pattern: the leftmost opening fence, then the
   * earliest closing fence that starts after it.
   */
  function Locate(s: string): (r: Option<Fence>)
    ensures r.None? <==> !HasBlock(s)
    ensures r.Some? ==> Occurs(s, Open, r.value.open) && Occurs(s, Close, r.value.close)
    ensures r.Some? ==> r.value.open + |Open| <= r.value.close
    ensures r.Some? ==> forall j :: 0 <= j < r.value.open ==> !Occurs(s, Open, j)
    ensures r.Some? ==> forall k :: r.value.open + |Open| <= k < r.value.close ==> !Occurs(s, Close, k)
  {
    match IndexOf(s, Open, 0)
    case None => None
    case Some(p) =>
      match IndexOf(s, Close, p + |Open|)
      case None => None
      case Some(c) => Some(Fence(p, c))
  }

  /**
   * The generated code of a finished message: the text between the first
   * match's fences. An empty capture is falsy in the source and counts as
   * no artifact.
   */
  function Extract(s: string): (r: Option<string>)
    ensures r.Some? ==> r.value != [] && HasBlock(s)
    ensures r.Some? ==> exists i :: Occurs(s, Open + r.value + Close, i)
    ensures !HasBlock(s) ==> r.None?
  {
    match Locate(s)
    case None => None
    case Some(f) =>
      if f.open + |Open| < f.close then
        var code := s[f.open + |Open|..f.close];
        assert s[f.open..f.close + |Close|] == Open + code + Close;
        assert Occurs(s, Open + code + Close, f.open);
        Some(code)
      else None
  }

  /** The message as the transcript shows it: every match replaced by the placeholder, left to right. */
  function Mask(s: string): (r: string)
    ensures !HasBlock(s) ==> r == s
    ensures Locate(s).Some? ==> |r| >= Locate(s).value.open && r[..Locate(s).value.open] == s[..Locate(s).value.open]
    decreases |s|
  {
    match Locate(s)
    case None => s
    case Some(f) => s[..f.open] + Placeholder + Mask(s[f.close + |Close|..])
  }

  /** No opening fence can start before `|a|` and reach into text that starts with three backticks. */
  lemma OpenNotAcross(a: string, b: string, j: int)
    requires |b| >= 3 && b[0] == '`' && b[1] == '`' && b[2] == '`'
    requires j < |a| < j + |Open|
    ensures !Occurs(a + b, Open, j)
  {
    if 0 <= j && j + |Open| <= |a + b| {
      var w := (a + b)[j..j + |Open|];
      var d := |a| - j;
      if d <= 3 {
        assert w[3] == b[3 - d] == '`' != Open[3];
      } else {
        assert w[d] == b[0] == '`' != Open[d];
      }
    }
  }

  /** No closing fence can start before `|a|` and reach into text that starts with a line break. */
  lemma CloseNotAcross(a: string, b: string, k: int)
    requires |b| >= 1 && b[0] == '\n'
    requires k < |a| < k + |Close|
    ensures !Occurs(a + b, Close, k)
  {
    if 0 <= k && k + |Close| <= |a + b| {
      var w := (a + b)[k..k + |Close|];
      assert w[|a| - k] == b[0] == '\n' != Close[|a| - k];
    }
  }

  /** When `pre` has no opening fence and `rest` starts with one, the first opening fence is at `|pre|`. */
  lemma FirstOpenAt(pre: string, rest: string)
    requires NoOpen(pre) && |rest| >= |Open| && rest[..|Open|] == Open
    ensures IndexOf(pre + rest, Open, 0) == Some(|pre|)
  {
    var s := pre + rest;
    assert s[|pre|..|pre| + |Open|] == Open;
    assert Occurs(s, Open, |pre|);
    assert rest[0] == Open[0] && rest[1] == Open[1] && rest[2] == Open[2];
    forall j | 0 <= j < |pre|
      ensures !Occurs(s, Open, j)
    {
      if j + |Open| <= |pre| {
        OccursInPrefix(pre, rest, Open, j);
      } else {
        OpenNotAcross(pre, rest, j);
      }
    }
    IndexOfFirst(s, Open, 0, |pre|);
  }

  /** A closing fence starting inside `code` would be one in `code` or one reaching into `rest`. */
  lemma NoCloseWithin(x: string, code: string, rest: string, k: int)
    requires NoClose(code) && |rest| >= 1 && rest[0] == '\n'
    requires |x| <= k < |x| + |code|
    ensures !Occurs(x + (code + rest), Close, k)
  {
    var i := k - |x|;
    OccursInSuffix(x, code + rest, Close, i);
    if i + |Close| <= |code| {
      OccursInPrefix(code, rest, Close, i);
    } else {
      CloseNotAcross(code, rest, i);
    }
  }

  /**
   * When `code` has no closing fence and `rest` starts with one, the first
   * closing fence at or after `|x|` in `x + (code + rest)` is at `|x| + |code|`.
   */
  lemma FirstCloseAt(x: string, code: string, rest: string)
    requires NoClose(code) && |rest| >= |Close| && rest[..|Close|] == Close
    ensures IndexOf(x + (code + rest), Close, |x|) == Some(|x| + |code|)
  {
    var s := x + (code + rest);
    var c := |x| + |code|;
    assert s[c..c + |Close|] == rest[..|Close|];
    assert Occurs(s, Close, c);
    assert rest[0] == Close[0];
    forall k | |x| <= k < c
      ensures !Occurs(s, Close, k)
    {
      NoCloseWithin(x, code, rest, k);
    }
    IndexOfFirst(s, Close, |x|, c);
  }

  /** In a written-out block, the first opening fence is the block's own. */
  lemma OpenOfBlock(pre: string, code: string, post: string)
    requires NoOpen(pre)
    ensures IndexOf(pre + Open + code + Close + post, Open, 0) == Some(|pre|)
  {
    var r := Open + (code + (Close + post));
    assert pre + Open + code + Close + post == pre + r;
    assert r[..|Open|] == Open;
    FirstOpenAt(pre, r);
  }

  /** In a written-out block whose code has no closing fence, the first closing fence after the opening one is the block's own. */
  lemma CloseOfBlock(pre: string, code: string, post: string)
    requires NoClose(code)
    ensures IndexOf(pre + Open + code + Close + post, Close, |pre| + |Open|)
            == Some(|pre| + |Open| + |code|)
  {
    var rest := Close + post;
    assert pre + Open + code + Close + post == (pre + Open) + (code + rest);
    assert rest[..|Close|] == Close;
    FirstCloseAt(pre + Open, code, rest);
  }

  /**
   * The match in `pre + Open + code + Close + post`, when `pre` has no
   * opening fence and `code` no closing fence, is the block written there,
   * whatever `post` holds.
   */
  lemma LocateBlock(pre: string, code: string, post: string)
    requires NoOpen(pre) && NoClose(code)
    ensures Locate(pre + Open + code + Close + post)
            == Some(Fence(|pre|, |pre| + |Open| + |code|))
  {
    OpenOfBlock(pre, code, post);
    CloseOfBlock(pre, code, post);
  }

  /**
   * Round trip: a message whose first fenced block holds non-empty code
   * without a closing fence yields exactly that code, whatever text (and
   * whatever further blocks) precede the block without an opening fence or
   * follow it.
   */
  lemma ExtractFirstBlock(pre: string, code: string, post: string)
    requires NoOpen(pre) && NoClose(code) && code != []
    ensures Extract(pre + Open + code + Close + post) == Some(code)
  {
    var s := pre + Open + code + Close + post;
    LocateBlock(pre, code, post);
    assert s[|pre| + |Open|..|pre| + |Open| + |code|] == code;
  }

  /** A first block with nothing between its fences gives no artifact. */
  lemma ExtractEmptyCapture(pre: string, post: string)
    requires NoOpen(pre)
    ensures Extract(pre + Open + Close + post) == None
  {
    LocateBlock(pre, [], post);
    assert pre + Open + [] + Close + post == pre + Open + Close + post;
  }

  /** Once a message holds a complete block, text appended after it does not move the first match. */
  lemma LocateIgnoresLaterText(s: string, t: string)
    requires HasBlock(s)
    ensures Locate(s + t) == Locate(s)
  {
    IndexOfExtend(s, t, Open, 0);
    IndexOfExtend(s, t, Close, Locate(s).value.open + |Open|);
  }

  /** First match wins: once a message holds a complete block, text appended after it changes nothing. */
  lemma ExtractIgnoresLaterText(s: string, t: string)
    requires HasBlock(s)
    ensures Locate(s + t) == Locate(s)
    ensures Extract(s + t) == Extract(s)
  {
    LocateIgnoresLaterText(s, t);
    var f := Locate(s).value;
    assert (s + t)[f.open + |Open|..f.close] == s[f.open + |Open|..f.close];
  }

  /** The placeholder has no backtick, so no fence can begin inside it. */
  lemma PlaceholderHasNoBacktick()
    ensures forall i :: 0 <= i < |Placeholder| ==> Placeholder[i] != '`'
    ensures forall i :: 0 <= i < |Open| ==> Open[i] != Placeholder[0]
  {
  }

  /**
   * Text with no opening fence, then the placeholder, then text without a
   * complete block, has no complete block: every opening fence in it lies in
   * the last part.
   */
  lemma NoBlockAround(a: string, b: string)
    requires NoOpen(a) && !HasBlock(b)
    ensures !HasBlock(a + Placeholder + b)
  {
    var s := a + Placeholder + b;
    var n := |a| + |Placeholder|;
    PlaceholderHasNoBacktick();
    assert s == (a + Placeholder) + b;
    forall j | j < n
      ensures !Occurs(s, Open, j)
    {
      if j + |Open| <= |a| {
        OccursInPrefix(a, Placeholder + b, Open, j);
      } else if 0 <= j && j + |Open| <= |s| {
        var w := s[j..j + |Open|];
        if j < |a| {
          assert w[|a| - j] == Placeholder[0] != Open[|a| - j];
        } else {
          assert w[0] == Placeholder[j - |a|] != Open[0];
        }
      }
    }
    forall j, k | Occurs(s, Open, j) && j + |Open| <= k
      ensures !Occurs(s, Close, k)
    {
      if j >= n {
        OccursInSuffix(a + Placeholder, b, Open, j - n);
        OccursInSuffix(a + Placeholder, b, Close, k - n);
      }
    }
  }

  /** An occurrence inside the first `n` characters is one of the whole string. */
  lemma OccursInSlicePrefix(s: string, n: nat, p: string, j: int)
    requires j + |p| <= n <= |s|
    ensures Occurs(s[..n], p, j) <==> Occurs(s, p, j)
  {
    if 0 <= j {
      assert s[..n][j..j + |p|] == s[j..j + |p|];
    }
  }

  /** The text before the first match has no opening fence. */
  lemma NoOpenBeforeMatch(s: string)
    requires Locate(s).Some?
    ensures NoOpen(s[..Locate(s).value.open])
  {
    var n := Locate(s).value.open;
    forall j | j + |Open| <= n ensures !Occurs(s[..n], Open, j) {
      OccursInSlicePrefix(s, n, Open, j);
    }
  }

  /** Masking a text with a match places the placeholder after the text before it and masks what follows. */
  lemma MaskUnfold(s: string)
    requires Locate(s).Some?
    ensures Mask(s) == s[..Locate(s).value.open] + Placeholder + Mask(s[Locate(s).value.close + |Close|..])
  {
  }

  /** Masking leaves no complete block behind. */
  lemma {:induction false} MaskRemovesEveryBlock(s: string)
    ensures !HasBlock(Mask(s))
    decreases |s|
  {
    match Locate(s)
    case None =>
    case Some(f) =>
      var rest := s[f.close + |Close|..];
      MaskRemovesEveryBlock(rest);
      NoOpenBeforeMatch(s);
      MaskUnfold(s);
      NoBlockAround(s[..f.open], Mask(rest));
  }

  /** Masking is idempotent: a masked message masks to itself. */
  lemma MaskIdempotent(s: string)
    ensures Mask(Mask(s)) == Mask(s)
  {
    MaskRemovesEveryBlock(s);
  }

  /** A message without a complete fenced block is shown unchanged. */
  lemma MaskWithoutBlock(s: string)
    requires !HasBlock(s)
    ensures Mask(s) == s
  {
  }

  /**
   * Masking replaces the first block by the placeholder and goes on with the
   * text after its closing fence; the text before it is kept as it is.
   */
  lemma MaskBlock(pre: string, code: string, post: string)
    requires NoOpen(pre) && NoClose(code)
    ensures Mask(pre + Open + code + Close + post) == pre + Placeholder + Mask(post)
  {
    var s := pre + Open + code + Close + post;
    LocateBlock(pre, code, post);
    assert s[..|pre|] == pre;
    assert s[|pre| + |Open| + |code| + |Close|..] == post;
  }
}
