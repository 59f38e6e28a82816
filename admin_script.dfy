/** The slug helpers of the admin page script: generateSlug, which turns a code's
    name into a URL slug by a chain of regular-expression replacements, the guard of
    autoGenerateSlug, and the tracking URL that updateTrackingUrl displays. */
module AdminScript {
  import opened Text
  import Router

  /** `\w` without the u flag: ASCII letters, digits and '_'. */
  predicate WordChar(c: char) {
    'a' <= c <= 'z' || 'A' <= c <= 'Z' || '0' <= c <= '9' || c == '_'
  }

  /** `\s`: the ECMAScript white-space and line-terminator characters. */
  predicate JsSpace(c: char) {
    var n := c as int;
    n == 0x09 || n == 0x0A || n == 0x0B || n == 0x0C || n == 0x0D || n == 0x20 || n == 0xA0 || n == 0x1680
    || (0x2000 <= n <= 0x200A) || n == 0x2028 || n == 0x2029 || n == 0x202F || n == 0x205F || n == 0x3000 || n == 0xFEFF
  }

  /** The characters a slug is made of: lower-case ASCII letters, digits, '_' and '-'. */
  predicate SlugChar(c: char) {
    'a' <= c <= 'z' || '0' <= c <= '9' || c == '_' || c == '-'
  }

  predicate SlugChars(s: string) {
    forall i :: 0 <= i < |s| ==> SlugChar(s[i])
  }

  predicate NoUpper(s: string) {
    forall i :: 0 <= i < |s| ==> !('A' <= s[i] <= 'Z')
  }

  /** The characters `[\w\s-]` matches. */
  predicate Kept(c: char) {
    WordChar(c) || JsSpace(c) || c == '-'
  }

  /** `.replace(/[^\w\s-]/g, '')`: the characters outside `[\w\s-]` are removed; every other
      character stays, as often as it occurs. */
  function KeepSlugChars(s: string): (r: string)
    ensures |r| <= |s|
    ensures forall i :: 0 <= i < |r| ==> Kept(r[i])
    ensures |s| == 1 ==> (Kept(s[0]) ==> r == s) && (!Kept(s[0]) ==> r == [])
    ensures NoUpper(s) ==> forall i :: 0 <= i < |r| ==> SlugChar(r[i]) || JsSpace(r[i])
    ensures (forall i :: 0 <= i < |s| ==> Kept(s[i])) ==> r == s
  {
    if s == [] then []
    else
      assert s == [s[0]] + s[1..];
      (if Kept(s[0]) then [s[0]] else []) + KeepSlugChars(s[1..])
  }

  /** Every character of `[\w\s-]` is kept as often as it occurs. */
  lemma {:induction false} KeepSlugCharsCounts(s: string, c: char)
    requires Kept(c)
    ensures multiset(KeepSlugChars(s))[c] == multiset(s)[c]
    decreases |s|
  {
    if s != [] {
      KeepSlugCharsCounts(s[1..], c);
      assert s == [s[0]] + s[1..];
      assert multiset(s) == multiset([s[0]]) + multiset(s[1..]);
    }
  }

  /** The filter works character by character, so it distributes over concatenation: the
      kept characters keep their order. */
  lemma {:induction false} KeepSlugCharsAppend(x: string, y: string)
    ensures KeepSlugChars(x + y) == KeepSlugChars(x) + KeepSlugChars(y)
    decreases |x|
  {
    if x == [] {
      assert x + y == y;
    } else {
      assert (x + y)[0] == x[0] && (x + y)[1..] == x[1..] + y;
      KeepSlugCharsAppend(x[1..], y);
      Associative(if Kept(x[0]) then [x[0]] else [], KeepSlugChars(x[1..]), KeepSlugChars(y));
    }
  }

  /** Drops a leading run of white space. */
  function DropSpaces(s: string): (r: string)
    ensures |r| <= |s| && r == s[|s| - |r|..]
    ensures r == [] || !JsSpace(r[0])
    ensures s != [] && !JsSpace(s[|s| - 1]) ==> r != []
  {
    if s != [] && JsSpace(s[0]) then DropSpaces(s[1..]) else s
  }

  /** `.replace(/\s+/g, '_')`: every maximal run of white space becomes one '_'. */
  function CollapseSpaces(s: string): (r: string)
    ensures forall i :: 0 <= i < |r| ==> !JsSpace(r[i])
    decreases |s|
  {
    if s == [] then []
    else if JsSpace(s[0]) then "_" + CollapseSpaces(DropSpaces(s))
    else [s[0]] + CollapseSpaces(s[1..])
  }

  /** After lower-casing and filtering, collapsing the white space leaves only slug characters. */
  lemma {:induction false} CollapseSpacesSlugChars(s: string)
    requires forall i :: 0 <= i < |s| ==> SlugChar(s[i]) || JsSpace(s[i])
    ensures SlugChars(CollapseSpaces(s))
    decreases |s|
  {
    if s != [] {
      if JsSpace(s[0]) {
        var d := DropSpaces(s);
        assert forall i :: 0 <= i < |d| ==> d[i] == s[|s| - |d| + i];
        CollapseSpacesSlugChars(d);
      } else {
        CollapseSpacesSlugChars(s[1..]);
      }
    }
  }

  /** Text without white space is left as it is. */
  lemma {:induction false} CollapseSpacesIdentity(s: string)
    requires forall i :: 0 <= i < |s| ==> !JsSpace(s[i])
    ensures CollapseSpaces(s) == s
    decreases |s|
  {
    if s != [] {
      CollapseSpacesIdentity(s[1..]);
      assert s == [s[0]] + s[1..];
    }
  }

  /** Drops a leading run of '-'. */
  function DropHyphens(s: string): (r: string)
    ensures |r| <= |s| && r == s[|s| - |r|..]
    ensures r == [] || r[0] != '-'
    ensures s != [] && s[|s| - 1] != '-' ==> r != []
  {
    if s != [] && s[0] == '-' then DropHyphens(s[1..]) else s
  }

  /** No two consecutive '-'. */
  predicate NoDoubleHyphen(s: string) {
    forall i :: 0 <= i < |s| - 1 ==> !(s[i] == '-' && s[i + 1] == '-')
  }

  lemma DropOneHyphen(s: string)
    requires s != [] && s[0] == '-'
    ensures NoDoubleHyphen(s) ==> DropHyphens(s) == s[1..] && NoDoubleHyphen(s[1..])
  {
    if NoDoubleHyphen(s) {
      if |s| > 1 {
        assert !(s[0] == '-' && s[1] == '-');
      }
      assert DropHyphens(s) == DropHyphens(s[1..]);
    }
  }

  /** `.replace(/-+/g, '-')`: every run of '-' becomes one '-'. */
  function CollapseHyphens(s: string): (r: string)
    ensures NoDoubleHyphen(r)
    ensures r == [] <==> s == []
    ensures r != [] ==> (r[0] == '-' <==> s[0] == '-')
    decreases |s|
  {
    if s == [] then []
    else if s[0] == '-' then "-" + CollapseHyphens(DropHyphens(s))
    else [s[0]] + CollapseHyphens(s[1..])
  }

  /** Collapsing hyphens keeps slug characters slug characters. */
  lemma {:induction false} CollapseHyphensSlugChars(s: string)
    requires SlugChars(s)
    ensures SlugChars(CollapseHyphens(s))
    decreases |s|
  {
    if s != [] {
      if s[0] == '-' {
        var rest := DropHyphens(s);
        assert forall i :: 0 <= i < |rest| ==> rest[i] == s[|s| - |rest| + i];
        assert rest == DropHyphens(s[1..]);
        CollapseHyphensSlugChars(rest);
      } else {
        assert forall i :: 0 <= i < |s| - 1 ==> s[1..][i] == s[i + 1];
        CollapseHyphensSlugChars(s[1..]);
      }
    }
  }

  /** Text without "--" is left as it is. */
  lemma {:induction false} CollapseHyphensIdentity(s: string)
    requires NoDoubleHyphen(s)
    ensures CollapseHyphens(s) == s
    decreases |s|
  {
    if s != [] {
      if s[0] == '-' {
        DropOneHyphen(s);
      } else {
        assert forall i :: 0 <= i < |s| - 1 ==> s[1..][i] == s[i + 1];
      }
      CollapseHyphensIdentity(s[1..]);
      assert s == [s[0]] + s[1..];
    }
  }

  /** Everything before index i and from index j on is '-'. */
  predicate HyphensOutside(s: string, i: nat, j: nat)
    requires i <= j <= |s|
  {
    (forall k :: 0 <= k < i ==> s[k] == '-') && (forall k :: j <= k < |s| ==> s[k] == '-')
  }

  /** `.replace(/^-+|-+$/g, '')`: the leading and the trailing run of '-' are removed and
      nothing else. */
  function TrimHyphens(s: string): (r: string)
    ensures r == [] || (r[0] != '-' && r[|r| - 1] != '-')
    ensures exists i, j :: 0 <= i <= j <= |s| && r == s[i..j] && HyphensOutside(s, i, j)
  {
    var l := LTrim(s, '-');
    var r := RTrim(l, '-');
    TrimSlice(s, l, r);
    r
  }

  /** l drops a run of '-' from the front of s, and r drops one from the back of l. */
  lemma TrimSlice(s: string, l: string, r: string)
    requires |l| <= |s| && l == s[|s| - |l|..] && forall k :: 0 <= k < |s| - |l| ==> s[k] == '-'
    requires r <= l && forall k :: |r| <= k < |l| ==> l[k] == '-'
    ensures |s| - |l| + |r| <= |s|
    ensures r == s[|s| - |l|..|s| - |l| + |r|]
    ensures HyphensOutside(s, |s| - |l|, |s| - |l| + |r|)
  {
    var i := |s| - |l|;
    var j := i + |r|;
    assert l == s[i..];
    assert |r| <= |l| && r == l[..|r|];
    assert r == s[i..j] by {
      forall k | 0 <= k < |r|
        ensures r[k] == s[i..j][k]
      {
        assert r[k] == l[k] == s[i + k];
      }
    }
    forall k | j <= k < |s|
      ensures s[k] == '-'
    {
      assert s[k] == l[k - i];
    }
  }

  /** `.substring(0, 50)` */
  function Take50(s: string): (r: string)
    ensures |r| <= 50 && r <= s
    ensures |s| <= 50 ==> r == s
  {
    if |s| <= 50 then s else s[..50]
  }

  /** generateSlug */
  function GenerateSlug(text: string): (slug: string)
    ensures |slug| <= 50
  {
    Take50(TrimHyphens(CollapseHyphens(CollapseSpaces(KeepSlugChars(ToLower(text))))))
  }

  lemma LowerHasNoUpper(text: string)
    ensures NoUpper(ToLower(text))
  {
  }

  /** A piece of a string keeps its characters and its lack of "--". */
  lemma SliceKeeps(c: string, i: nat, j: nat)
    requires i <= j <= |c|
    ensures SlugChars(c) ==> SlugChars(c[i..j])
    ensures NoDoubleHyphen(c) ==> NoDoubleHyphen(c[i..j])
  {
    assert forall k :: 0 <= k < j - i ==> c[i..j][k] == c[i + k];
  }

  /** What generateSlug promises: at most 50 characters, all of them lower-case letters,
      digits, '_' or '-' (so no white space), no "--", and no leading '-'. */
  lemma GenerateSlugShape(text: string)
    ensures var r := GenerateSlug(text);
      |r| <= 50 && SlugChars(r) && NoDoubleHyphen(r) && (r == [] || r[0] != '-')
  {
    var c := CollapseHyphens(CollapseSpaces(KeepSlugChars(ToLower(text))));
    CollapsedChars(text);
    TrimAndCut(c);
  }

  /** Up to the hyphen collapsing, only slug characters remain. */
  lemma CollapsedChars(text: string)
    ensures SlugChars(CollapseHyphens(CollapseSpaces(KeepSlugChars(ToLower(text)))))
  {
    LowerHasNoUpper(text);
    var k := KeepSlugChars(ToLower(text));
    CollapseSpacesSlugChars(k);
    CollapseHyphensSlugChars(CollapseSpaces(k));
  }

  /** Trimming and cutting keep the characters and the lack of "--", and leave no leading '-'. */
  lemma TrimAndCut(c: string)
    requires SlugChars(c) && NoDoubleHyphen(c)
    ensures var r := Take50(TrimHyphens(c));
      |r| <= 50 && SlugChars(r) && NoDoubleHyphen(r) && (r == [] || r[0] != '-')
  {
    var t := TrimHyphens(c);
    var i, j :| 0 <= i <= j <= |c| && t == c[i..j];
    SliceKeeps(c, i, j);
    var r := Take50(t);
    SliceKeeps(t, 0, |r|);
    assert t[0..|r|] == r;
  }

  /** A trailing '-' survives only when the 50-character cut lands right after a hyphen. */
  lemma TrailingHyphenOnlyFromCut(text: string)
    ensures var t := TrimHyphens(CollapseHyphens(CollapseSpaces(KeepSlugChars(ToLower(text)))));
      var r := GenerateSlug(text);
      r != [] && r[|r| - 1] == '-' ==> |t| > 50 && t[49] == '-'
  {
    var t := TrimHyphens(CollapseHyphens(CollapseSpaces(KeepSlugChars(ToLower(text)))));
    CutLeavesHyphen(t);
    assert GenerateSlug(text) == Take50(t);
  }

  lemma CutLeavesHyphen(t: string)
    requires t == [] || t[|t| - 1] != '-'
    ensures var r := Take50(t); r != [] && r[|r| - 1] == '-' ==> |t| > 50 && t[49] == '-'
  {
  }

  /** Collapsing is done run by run: a split after a non-space character splits the result. */
  lemma {:induction false} DropSpacesAppend(x: string, y: string)
    requires x != [] && !JsSpace(x[|x| - 1])
    ensures DropSpaces(x + y) == DropSpaces(x) + y
    decreases |x|
  {
    if JsSpace(x[0]) {
      assert (x + y)[1..] == x[1..] + y;
      DropSpacesAppend(x[1..], y);
    }
  }

  lemma {:induction false} CollapseSpacesAppend(x: string, y: string)
    requires x == [] || !JsSpace(x[|x| - 1])
    ensures CollapseSpaces(x + y) == CollapseSpaces(x) + CollapseSpaces(y)
    decreases |x|, 1
  {
    if x == [] {
      assert x + y == y;
    } else if JsSpace(x[0]) {
      CollapseSpacesAppendRun(x, y);
    } else {
      CollapseSpacesAppendChar(x, y);
    }
  }

  lemma {:induction false} CollapseSpacesAppendRun(x: string, y: string)
    requires x != [] && JsSpace(x[0]) && !JsSpace(x[|x| - 1])
    ensures CollapseSpaces(x + y) == CollapseSpaces(x) + CollapseSpaces(y)
    decreases |x|, 0
  {
    var d := DropSpaces(x);
    assert d != [] && d[|d| - 1] == x[|x| - 1];
    var xy := x + y;
    assert xy != [] && JsSpace(xy[0]);
    calc {
      CollapseSpaces(xy);
      "_" + CollapseSpaces(DropSpaces(xy));
      { DropSpacesAppend(x, y); }
      "_" + CollapseSpaces(d + y);
      { CollapseSpacesAppend(d, y); }
      "_" + (CollapseSpaces(d) + CollapseSpaces(y));
      CollapseSpaces(x) + CollapseSpaces(y);
    }
  }

  lemma {:induction false} CollapseSpacesAppendChar(x: string, y: string)
    requires x != [] && !JsSpace(x[0]) && !JsSpace(x[|x| - 1])
    ensures CollapseSpaces(x + y) == CollapseSpaces(x) + CollapseSpaces(y)
    decreases |x|, 0
  {
    var t := x[1..];
    var xy := x + y;
    assert xy != [] && xy[0] == x[0] && xy[1..] == t + y;
    assert t == [] || t[|t| - 1] == x[|x| - 1];
    calc {
      CollapseSpaces(xy);
      [x[0]] + CollapseSpaces(t + y);
      { CollapseSpacesAppend(t, y); }
      [x[0]] + (CollapseSpaces(t) + CollapseSpaces(y));
      { Associative([x[0]], CollapseSpaces(t), CollapseSpaces(y)); }
      CollapseSpaces(x) + CollapseSpaces(y);
    }
  }

  lemma {:induction false} DropSpacesRun(ws: string, b: string)
    requires forall i :: 0 <= i < |ws| ==> JsSpace(ws[i])
    requires b == [] || !JsSpace(b[0])
    ensures DropSpaces(ws + b) == b
    decreases |ws|
  {
    if ws != [] {
      assert (ws + b)[1..] == ws[1..] + b;
      DropSpacesRun(ws[1..], b);
    } else {
      assert ws + b == b;
    }
  }

  /** Each run of white space inside the name becomes one '_': the text before the run,
      '_', then the text after it. */
  lemma CollapseSpacesRun(a: string, ws: string, b: string)
    requires a == [] || !JsSpace(a[|a| - 1])
    requires ws != [] && forall i :: 0 <= i < |ws| ==> JsSpace(ws[i])
    requires b == [] || !JsSpace(b[0])
    ensures CollapseSpaces(a + ws + b) == CollapseSpaces(a) + "_" + CollapseSpaces(b)
  {
    var wb := ws + b;
    assert CollapseSpaces(wb) == "_" + CollapseSpaces(b) by {
      assert wb != [] && JsSpace(wb[0]);
      DropSpacesRun(ws, b);
    }
    assert CollapseSpaces(a + wb) == CollapseSpaces(a) + CollapseSpaces(wb) by {
      CollapseSpacesAppend(a, wb);
    }
    Associative(a, ws, b);
    Associative(CollapseSpaces(a), "_", CollapseSpaces(b));
  }

  /** Hyphen runs are collapsed run by run, as white space is. */
  lemma {:induction false} DropHyphensAppend(x: string, y: string)
    requires x != [] && x[|x| - 1] != '-'
    ensures DropHyphens(x + y) == DropHyphens(x) + y
    decreases |x|
  {
    if x[0] == '-' {
      assert (x + y)[1..] == x[1..] + y;
      DropHyphensAppend(x[1..], y);
    }
  }

  lemma {:induction false} CollapseHyphensAppend(x: string, y: string)
    requires x == [] || x[|x| - 1] != '-'
    ensures CollapseHyphens(x + y) == CollapseHyphens(x) + CollapseHyphens(y)
    decreases |x|, 1
  {
    if x == [] {
      assert x + y == y;
    } else if x[0] == '-' {
      CollapseHyphensAppendRun(x, y);
    } else {
      CollapseHyphensAppendChar(x, y);
    }
  }

  lemma {:induction false} CollapseHyphensAppendRun(x: string, y: string)
    requires x != [] && x[0] == '-' && x[|x| - 1] != '-'
    ensures CollapseHyphens(x + y) == CollapseHyphens(x) + CollapseHyphens(y)
    decreases |x|, 0
  {
    var d := DropHyphens(x);
    DropHyphensLast(x);
    assert CollapseHyphens(x + y) == "-" + CollapseHyphens(d + y) by {
      assert (x + y)[0] == '-';
      DropHyphensAppend(x, y);
    }
    CollapseHyphensAppend(d, y);
    Associative("-", CollapseHyphens(d), CollapseHyphens(y));
  }

  lemma DropHyphensLast(x: string)
    requires x != [] && x[|x| - 1] != '-'
    ensures var d := DropHyphens(x); d != [] && d[|d| - 1] == x[|x| - 1]
  {
    var d := DropHyphens(x);
    assert d == x[|x| - |d|..];
  }

  lemma {:induction false} CollapseHyphensAppendChar(x: string, y: string)
    requires x != [] && x[0] != '-' && x[|x| - 1] != '-'
    ensures CollapseHyphens(x + y) == CollapseHyphens(x) + CollapseHyphens(y)
    decreases |x|, 0
  {
    var t := x[1..];
    var xy := x + y;
    assert xy != [] && xy[0] == x[0] && xy[1..] == t + y;
    assert t == [] || t[|t| - 1] == x[|x| - 1];
    calc {
      CollapseHyphens(xy);
      [x[0]] + CollapseHyphens(t + y);
      { CollapseHyphensAppend(t, y); }
      [x[0]] + (CollapseHyphens(t) + CollapseHyphens(y));
      { Associative([x[0]], CollapseHyphens(t), CollapseHyphens(y)); }
      CollapseHyphens(x) + CollapseHyphens(y);
    }
  }

  lemma {:induction false} DropHyphensRun(hs: string, b: string)
    requires forall i :: 0 <= i < |hs| ==> hs[i] == '-'
    requires b == [] || b[0] != '-'
    ensures DropHyphens(hs + b) == b
    decreases |hs|
  {
    if hs != [] {
      assert (hs + b)[1..] == hs[1..] + b;
      DropHyphensRun(hs[1..], b);
    } else {
      assert hs + b == b;
    }
  }

  /** Each run of '-' becomes one '-': the text before the run, '-', then the text after it. */
  lemma CollapseHyphensRun(a: string, hs: string, b: string)
    requires a == [] || a[|a| - 1] != '-'
    requires hs != [] && forall i :: 0 <= i < |hs| ==> hs[i] == '-'
    requires b == [] || b[0] != '-'
    ensures CollapseHyphens(a + hs + b) == CollapseHyphens(a) + "-" + CollapseHyphens(b)
  {
    var hb := hs + b;
    assert CollapseHyphens(hb) == "-" + CollapseHyphens(b) by {
      assert hb != [] && hb[0] == '-';
      DropHyphensRun(hs, b);
    }
    assert CollapseHyphens(a + hb) == CollapseHyphens(a) + CollapseHyphens(hb) by {
      CollapseHyphensAppend(a, hb);
    }
    Associative(a, hs, b);
    Associative(CollapseHyphens(a), "-", CollapseHyphens(b));
  }

  lemma Associative(x: string, y: string, z: string)
    ensures x + y + z == x + (y + z)
  {
  }

  /** A slug without a trailing '-' is a fixed point of generateSlug. */
  lemma SlugFixedPoint(r: string)
    requires |r| <= 50 && SlugChars(r) && NoDoubleHyphen(r)
    requires r == [] || (r[0] != '-' && r[|r| - 1] != '-')
    ensures GenerateSlug(r) == r
  {
    assert ToLower(r) == r;
    assert forall i :: 0 <= i < |r| ==> !JsSpace(r[i]) && (WordChar(r[i]) || r[i] == '-');
    assert KeepSlugChars(r) == r;
    CollapseSpacesIdentity(r);
    CollapseHyphensIdentity(r);
    assert LTrim(r, '-') == r;
    assert RTrim(r, '-') == r;
  }

  /** Generating a slug from a generated slug changes nothing, unless the cut left a trailing '-'. */
  lemma GenerateSlugIdempotent(text: string)
    ensures var r := GenerateSlug(text);
      r == [] || r[|r| - 1] != '-' ==> GenerateSlug(r) == r
  {
    var r := GenerateSlug(text);
    GenerateSlugShape(text);
    if r == [] || r[|r| - 1] != '-' {
      SlugFixedPoint(r);
    }
  }

  /** autoGenerateSlug: a slug is filled in only when the slug field is empty and the name is not
      (JavaScript truthiness: only the empty string is false). */
  function AutoSlug(slugField: string, nameField: string): (slug: Option<string>)
    ensures slug.Some? <==> slugField == "" && nameField != ""
    ensures slug.Some? ==> slug.value == GenerateSlug(nameField)
  {
    if slugField == "" && nameField != "" then Some(GenerateSlug(nameField)) else None
  }

  /** updateTrackingUrl: the new text of the tracking-URL element, or None when it is left
      as it was (the element is missing or the slug is empty). */
  function TrackingUrl(present: bool, homeUrl: string, slug: string): (text: Option<string>)
    ensures text.Some? <==> present && slug != ""
    ensures text.Some? ==> text.value == homeUrl + "/qr/" + slug + "/"
  {
    if present && slug != "" then Some(homeUrl + "/qr/" + slug + "/") else None
  }

  /** The displayed URL is the one the server builds as long as no base URL is saved and the home
      URL has no trailing '/': the script always starts from home_url(). */
  lemma TrackingUrlAgreesWithServer(homeUrl: string, slug: string)
    requires slug != ""
    requires homeUrl == [] || homeUrl[|homeUrl| - 1] != '/'
    ensures TrackingUrl(true, homeUrl, slug) == Some(Router.QrUrl(slug, None, "", homeUrl))
  {
  }
}
