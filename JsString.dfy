/**
 * The JavaScript string operations the link-preview middleware relies on:
 * `indexOf`, `includes`, and `replace` with a string pattern and a string
 * replacement (which expands the `$$`, `$&`, `` $` `` and `$'` patterns of the
 * replacement, and has no capture groups to refer to).
 */
module JsString {

  import opened Options

  /** `pat` occurs in `s` starting at index `i`. */
  predicate OccursAt(s: string, pat: string, i: int) {
    0 <= i && i + |pat| <= |s| && s[i..i + |pat|] == pat
  }

  /** `s.indexOf(pat, from)`: the first occurrence at or after `from`. */
  function IndexFrom(s: string, pat: string, from: nat): (r: Option<nat>)
    requires from <= |s|
    ensures r.Some? ==> from <= r.value && OccursAt(s, pat, r.value)
    ensures r.Some? ==> forall j :: from <= j < r.value ==> !OccursAt(s, pat, j)
    ensures r.None? ==> forall j :: from <= j ==> !OccursAt(s, pat, j)
    decreases |s| - from
  {
    if OccursAt(s, pat, from) then Some(from)
    else if from == |s| then None
    else IndexFrom(s, pat, from + 1)
  }

  function IndexOf(s: string, pat: string): (r: Option<nat>)
    ensures r.Some? ==> OccursAt(s, pat, r.value) && forall j :: 0 <= j < r.value ==> !OccursAt(s, pat, j)
    ensures r.None? ==> forall j :: !OccursAt(s, pat, j)
  {
    IndexFrom(s, pat, 0)
  }

  /** `s.includes(pat)`. */
  predicate Includes(s: string, pat: string)
    ensures Includes(s, pat) <==> exists i :: OccursAt(s, pat, i)
  {
    IndexOf(s, pat).Some?
  }

  /**
   * The expansion of a replacement template (GetSubstitution of ECMAScript with no
   * captures): `$$` is a dollar, `$&` the match, `` $` `` the text before it, `$'` the
   * text after it; any other `$` is literal.
   */
  function Substitute(t: string, matched: string, before: string, after: string): string
    decreases |t|
  {
    if t == [] then []
    else if t[0] == '$' && |t| >= 2 && Reference(t[1], matched, before, after).Some? then
      Reference(t[1], matched, before, after).value + Substitute(t[2..], matched, before, after)
    else [t[0]] + Substitute(t[1..], matched, before, after)
  }

  /** The characters that turn a preceding `$` into a pattern. */
  predicate IsPatternChar(c: char) {
    c == '$' || c == '&' || c == '`' || c == '\''
  }

  /** What `$c` stands for in a template, if `c` makes it a pattern. */
  function Reference(c: char, matched: string, before: string, after: string): (r: Option<string>)
    ensures r.Some? <==> IsPatternChar(c)
  {
    if c == '$' then Some("$")
    else if c == '&' then Some(matched)
    else if c == '`' then Some(before)
    else if c == '\'' then Some(after)
    else None
  }

  /** `s.replace(pat, template)` for a string `pat`: only the first occurrence is replaced. */
  function ReplaceFirst(s: string, pat: string, template: string): (r: string)
    ensures !Includes(s, pat) ==> r == s
    ensures Includes(s, pat) ==> s[..IndexOf(s, pat).value] <= r
  {
    match IndexOf(s, pat)
    case None => s
    case Some(i) => s[..i] + Substitute(template, pat, s[..i], s[i + |pat|..]) + s[i + |pat|..]
  }

  /** `block` spliced into `s` right after the first occurrence of `pat`; `s` itself when there is none. */
  function InsertAfterFirst(s: string, pat: string, block: string): (r: string)
    ensures !Includes(s, pat) ==> r == s
    ensures |r| == |s| + (if Includes(s, pat) then |block| else 0)
  {
    match IndexOf(s, pat)
    case None => s
    case Some(i) => s[..i + |pat|] + block + s[i + |pat|..]
  }

  /** A template without `$` expands to itself. */
  lemma {:induction false} SubstituteNoDollar(t: string, matched: string, before: string, after: string)
    requires '$' !in t
    ensures Substitute(t, matched, before, after) == t
  {
    if t != [] {
      assert t[0] in t;
      assert forall c :: c in t[1..] ==> c in t;
      SubstituteNoDollar(t[1..], matched, before, after);
      assert t == [t[0]] + t[1..];
    }
  }

  /** A `$`-free prefix passes through the expansion unchanged. */
  lemma {:induction false} SubstituteLiteralPrefix(a: string, b: string, matched: string, before: string, after: string)
    requires '$' !in a
    ensures Substitute(a + b, matched, before, after) == a + Substitute(b, matched, before, after)
  {
    if a == [] {
      assert a + b == b;
    } else {
      assert a[0] in a;
      assert forall c :: c in a[1..] ==> c in a;
      assert (a + b)[0] == a[0] && (a + b)[1..] == a[1..] + b;
      SubstituteLiteralPrefix(a[1..], b, matched, before, after);
      assert a == [a[0]] + a[1..];
    }
  }

  /**
   * A `$`-free suffix that does not begin with a pattern character passes through
   * unchanged, whatever precedes it.
   */
  lemma {:induction false} SubstituteLiteralSuffix(a: string, b: string, matched: string, before: string, after: string)
    requires '$' !in b
    requires b != [] ==> !IsPatternChar(b[0])
    ensures Substitute(a + b, matched, before, after) == Substitute(a, matched, before, after) + b
    decreases |a|
  {
    if a == [] {
      assert a + b == b;
      SubstituteNoDollar(b, matched, before, after);
    } else if a[0] == '$' && |a| >= 2 && IsPatternChar(a[1]) {
      SubstituteLiteralSuffix(a[2..], b, matched, before, after);
      SuffixAfterReference(a, b, matched, before, after);
    } else if |a| == 1 {
      SubstituteNoDollar(b, matched, before, after);
      SuffixAfterLastChar(a, b, matched, before, after);
    } else {
      SubstituteLiteralSuffix(a[1..], b, matched, before, after);
      SuffixAfterLiteral(a, b, matched, before, after);
    }
  }

  /** One step of `SubstituteLiteralSuffix`: `a` starts with a reference `$c`. */
  lemma SuffixAfterReference(a: string, b: string, matched: string, before: string, after: string)
    requires |a| >= 2 && a[0] == '$' && IsPatternChar(a[1])
    requires Substitute(a[2..] + b, matched, before, after) == Substitute(a[2..], matched, before, after) + b
    ensures Substitute(a + b, matched, before, after) == Substitute(a, matched, before, after) + b
  {
    var ab := a + b;
    assert ab[0] == a[0] && ab[1] == a[1];
    assert ab[2..] == a[2..] + b;
    SubstituteReference(a, matched, before, after);
    SubstituteReference(ab, matched, before, after);
    var ref := Reference(a[1], matched, before, after).value;
    Associative(ref, Substitute(a[2..], matched, before, after), b);
  }

  /** A template starting with a reference `$c` expands it first. */
  lemma SubstituteReference(t: string, matched: string, before: string, after: string)
    requires |t| >= 2 && t[0] == '$' && IsPatternChar(t[1])
    ensures Substitute(t, matched, before, after)
         == Reference(t[1], matched, before, after).value + Substitute(t[2..], matched, before, after)
  {
  }

  /** One step of `SubstituteLiteralSuffix`: `a` is a single character, `$` or not. */
  lemma SuffixAfterLastChar(a: string, b: string, matched: string, before: string, after: string)
    requires |a| == 1 && '$' !in b && (b != [] ==> !IsPatternChar(b[0]))
    requires Substitute(b, matched, before, after) == b
    ensures Substitute(a + b, matched, before, after) == Substitute(a, matched, before, after) + b
  {
    var ab := a + b;
    assert ab[0] == a[0] && ab[1..] == b && a[1..] == [];
    assert |ab| >= 2 ==> ab[1] == b[0];
  }

  /** One step of `SubstituteLiteralSuffix`: `a` starts with a literal character. */
  lemma SuffixAfterLiteral(a: string, b: string, matched: string, before: string, after: string)
    requires |a| >= 2 && (a[0] != '$' || !IsPatternChar(a[1]))
    requires Substitute(a[1..] + b, matched, before, after) == Substitute(a[1..], matched, before, after) + b
    ensures Substitute(a + b, matched, before, after) == Substitute(a, matched, before, after) + b
  {
    var ab := a + b;
    assert ab[0] == a[0] && ab[1] == a[1] && ab[1..] == a[1..] + b;
    Associative([a[0]], Substitute(a[1..], matched, before, after), b);
  }

  lemma Associative(x: string, y: string, z: string)
    ensures x + (y + z) == (x + y) + z
  {
  }

  /**
   * The characterisation of the splice by the first occurrence alone: everything up to
   * the end of the occurrence kept, the block next, the rest of `s` after it.
   */
  lemma InsertAfterFirstAt(s: string, pat: string, block: string, i: nat)
    requires OccursAt(s, pat, i) && forall j :: 0 <= j < i ==> !OccursAt(s, pat, j)
    ensures |InsertAfterFirst(s, pat, block)| == |s| + |block|
    ensures InsertAfterFirst(s, pat, block)[..i + |pat|] == s[..i + |pat|]
    ensures InsertAfterFirst(s, pat, block)[i + |pat|..i + |pat| + |block|] == block
    ensures InsertAfterFirst(s, pat, block)[i + |pat| + |block|..] == s[i + |pat|..]
  {
  }

  /**
   * `s.replace(pat, pat + block)` is the splice of `block` after the first `pat`
   * exactly when the template needs no expansion, as with a `$`-free template.
   */
  lemma ReplaceIsInsert(s: string, pat: string, block: string)
    requires '$' !in pat + block
    ensures ReplaceFirst(s, pat, pat + block) == InsertAfterFirst(s, pat, block)
  {
    match IndexOf(s, pat)
    case None =>
    case Some(i) =>
      var before, after := s[..i], s[i + |pat|..];
      SubstituteNoDollar(pat + block, pat, before, after);
      assert s[..i + |pat|] == before + pat;
      Associative(before, pat, block);
  }

  lemma {:induction false} OccursInRight(a: string, b: string, pat: string, i: int)
    requires OccursAt(b, pat, i)
    ensures OccursAt(a + b, pat, |a| + i)
  {
    assert (a + b)[|a| + i..|a| + i + |pat|] == b[i..i + |pat|];
  }

  lemma {:induction false} OccursInLeft(a: string, b: string, pat: string, i: int)
    requires OccursAt(a, pat, i)
    ensures OccursAt(a + b, pat, i)
  {
    assert (a + b)[i..i + |pat|] == a[i..i + |pat|];
  }

  /** Whatever the inserted block contains, the spliced text contains too. */
  lemma InsertedBlockIncluded(s: string, pat: string, block: string, x: string)
    requires Includes(s, pat) && Includes(block, x)
    ensures Includes(InsertAfterFirst(s, pat, block), x)
  {
    var i := IndexOf(s, pat).value;
    var k :| OccursAt(block, x, k);
    OccursInRight(s[..i + |pat|], block, x, k);
    OccursInLeft(s[..i + |pat|] + block, s[i + |pat|..], x, i + |pat| + k);
  }

  /**
   * Replacing with a template whose only `$`s lie in its middle part `x`: the text
   * around `x` is inserted verbatim and `x` is expanded against the first match.
   */
  lemma ReplaceExpandsMiddle(s: string, pat: string, pre: string, x: string, suf: string)
    requires Includes(s, pat)
    requires '$' !in pre && '$' !in suf && (suf != [] ==> !IsPatternChar(suf[0]))
    ensures var i := IndexOf(s, pat).value;
      ReplaceFirst(s, pat, pre + x + suf)
      == s[..i] + (pre + Substitute(x, pat, s[..i], s[i + |pat|..]) + suf) + s[i + |pat|..]
  {
    var i := IndexOf(s, pat).value;
    SubstituteMiddle(pre, x, suf, pat, s[..i], s[i + |pat|..]);
  }

  /** Only the middle part `x` of a template is expanded when the parts around it are literal. */
  lemma SubstituteMiddle(pre: string, x: string, suf: string, matched: string, before: string, after: string)
    requires '$' !in pre && '$' !in suf && (suf != [] ==> !IsPatternChar(suf[0]))
    ensures Substitute(pre + x + suf, matched, before, after) == pre + Substitute(x, matched, before, after) + suf
  {
    SubstituteLiteralPrefix(pre, x + suf, matched, before, after);
    SubstituteLiteralSuffix(x, suf, matched, before, after);
    Associative(pre, x, suf);
  }

  /**
   * The replacement `pat + blockX`, where `blockX` has literal text around a part `x`, splices in
   * `blockY`, the same text around `x` expanded against the first match.
   */
  lemma ReplaceSplicesExpanded(s: string, pat: string, pre: string, x: string, suf: string, blockX: string, blockY: string)
    requires Includes(s, pat)
    requires '$' !in pre && '$' !in suf && (suf != [] ==> !IsPatternChar(suf[0]))
    requires pat + blockX == pre + x + suf
    requires var i := IndexOf(s, pat).value;
      pat + blockY == pre + Substitute(x, pat, s[..i], s[i + |pat|..]) + suf
    ensures ReplaceFirst(s, pat, pat + blockX) == InsertAfterFirst(s, pat, blockY)
  {
    var i := IndexOf(s, pat).value;
    ReplaceExpandsMiddle(s, pat, pre, x, suf);
    assert s[..i + |pat|] == s[..i] + pat;
    Associative(s[..i], pat, blockY);
  }
}
