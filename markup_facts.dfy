/** What the rewriter of `src/svg-to-react-component.ts` does, stated on
    whole inputs: where `addProp` puts the binding, that it rewrites every
    later tag too, and what `convertDataAttributesToJsxAttributes` changes. */
module MarkupFacts {
  import opened Text
  import opened Markup

  // ---------------------------------------------------------------------------
  // The rewrite of one tag

  /** Where ` binding` lands in a tag: before a final `/>`, else before the final `>`. */
  function CloseIndex(tag: string): nat
    requires |tag| >= 1
  {
    if |tag| >= 2 && tag[|tag| - 2] == '/' then |tag| - 2 else |tag| - 1
  }

  /** On text whose only `>` is its last character, the `/>|>` rewrite inserts
      ` full` exactly once, just before the closing `/>` or `>`. */
  lemma {:induction false} InsertBeforeCloseOnce(s: string, full: string)
    requires |s| >= 1 && s[|s| - 1] == '>'
    requires forall j :: 0 <= j < |s| - 1 ==> s[j] != '>'
    ensures InsertBeforeClose(s, full) == s[..CloseIndex(s)] + " " + full + s[CloseIndex(s)..]
  {
    if |s| >= 2 && s[0] == '/' && s[1] == '>' {
      assert |s| == 2;
      assert s[2..] == [];
    } else if s[0] == '>' {
      assert |s| == 1;
      assert s[1..] == [];
    } else {
      var t := s[1..];
      InsertBeforeCloseOnce(t, full);
      assert CloseIndex(s) == CloseIndex(t) + 1;
      assert s[..CloseIndex(s)] == [s[0]] + t[..CloseIndex(t)];
      assert s[CloseIndex(s)..] == t[CloseIndex(t)..];
    }
  }

  /** A tag without the attribute gets ` binding` before its closing `/>` or `>`. */
  lemma RewriteTagWithoutAttribute(tag: string, name: string, prop: string, full: string)
    requires IsTag(tag, name) && '>' !in name
    requires !Contains(tag, AttrLiteral(prop))
    ensures RewriteTag(tag, prop, full) == tag[..CloseIndex(tag)] + " " + full + tag[CloseIndex(tag)..]
  {
    var lt := Opening(name);
    assert tag[..|lt|] == lt;
    forall j | 0 <= j < |tag| - 1
      ensures tag[j] != '>'
    {
      if j < |lt| {
        assert tag[j] == lt[j];
        assert j == 0 || lt[j] == name[j - 1];
      }
    }
    InsertBeforeCloseOnce(tag, full);
  }

  /** `lit` occurs in `s` at `p` and nowhere else. */
  predicate OnlyAt(s: string, lit: string, p: nat)
  {
    OccursAt(s, lit, p) && forall k: nat :: k <= |s| && k != p ==> !OccursAt(s, lit, k)
  }

  lemma NoOccurrenceAfter(s: string, lit: string, p: nat, e: nat)
    requires OnlyAt(s, lit, p) && p < e <= |s|
    ensures forall k: nat :: !QuotedAttrAt(s[e..], lit, k)
  {
    forall k: nat
      ensures !OccursAt(s[e..], lit, k)
    {
      if k + |lit| <= |s[e..]| {
        assert s[e..][k..k + |lit|] == s[e + k..e + k + |lit|];
        assert !OccursAt(s, lit, e + k);
      }
    }
  }

  /** A tag whose only `prop="…"` has a non-empty value gets the binding in its
      place: the attribute is replaced, not duplicated. */
  lemma RewriteTagReplacesAttribute(tag: string, prop: string, full: string, p: nat)
    requires OnlyAt(tag, AttrLiteral(prop), p)
    requires QuotedEnd(tag, p + |AttrLiteral(prop)|).Some?
    ensures RewriteTag(tag, prop, full)
            == tag[..p] + full + tag[QuotedEnd(tag, p + |AttrLiteral(prop)|).value..]
  {
    var lit := AttrLiteral(prop);
    var e := QuotedEnd(tag, p + |lit|).value;
    assert Contains(tag, lit);
    assert QuotedAttrAt(tag, lit, p);
    var sp := QuotedAttrFrom(tag, lit, 0);
    assert sp == Some(Span(p, e));
    NoOccurrenceAfter(tag, lit, p, e);
    assert QuotedAttrFrom(tag[e..], lit, 0).None?;
    assert ReplaceQuotedAttrs(tag[e..], lit, full) == tag[e..];
    assert ReplaceQuotedAttrs(tag, lit, full) == tag[..p] + full + ReplaceQuotedAttrs(tag[e..], lit, full);
  }

  /** A tag whose only `prop="` opens an empty value (`prop=""`) is left as it is:
      the `indexOf` test finds the attribute but the `[^"]+` pattern does not,
      so no binding is added at all. */
  lemma RewriteTagIgnoresEmptyAttribute(tag: string, prop: string, full: string, p: nat)
    requires OnlyAt(tag, AttrLiteral(prop), p)
    requires p + |AttrLiteral(prop)| < |tag| && tag[p + |AttrLiteral(prop)|] == '"'
    ensures RewriteTag(tag, prop, full) == tag
  {
    var lit := AttrLiteral(prop);
    assert Contains(tag, lit);
    assert QuotedEnd(tag, p + |lit|).None?;
    assert forall k: nat :: !QuotedAttrAt(tag, lit, k);
  }

  // ---------------------------------------------------------------------------
  // Every tag is replaced by the rewritten first tag

  /** gaps[0] + tags[0] + gaps[1] + … + tags[n-1] + gaps[n]. */
  function Assemble(gaps: seq<string>, tags: seq<string>): string
    requires |gaps| == |tags| + 1
    decreases |tags|
  {
    if tags == [] then gaps[0] else gaps[0] + tags[0] + Assemble(gaps[1..], tags[1..])
  }

  /** No gap contains `<name`. */
  predicate PlainGaps(gaps: seq<string>, name: string)
  {
    forall i :: 0 <= i < |gaps| ==> !Contains(gaps[i], Opening(name))
  }

  predicate AllTags(tags: seq<string>, name: string)
  {
    forall i :: 0 <= i < |tags| ==> IsTag(tags[i], name)
  }

  function Repeat(t: string, n: nat): (r: seq<string>)
    ensures |r| == n && forall i :: 0 <= i < n ==> r[i] == t
  {
    seq(n, _ => t)
  }

  /** After a gap without `<name`, the first `<name` is the one the tag opens with. */
  lemma OpeningAfterGap(g: string, t: string, rest: string, name: string)
    requires '<' !in name
    requires !Contains(g, Opening(name)) && IsTag(t, name)
    ensures FirstAt(g + t + rest, Opening(name), |g|)
  {
    var s := g + t + rest;
    var lt := Opening(name);
    assert s[|g|..|g| + |lt|] == t[..|lt|];
    forall k: nat | k < |g|
      ensures !OccursAt(s, lt, k)
    {
      if k + |lt| <= |g| {
        assert s[k..k + |lt|] == g[k..k + |lt|];
        assert !OccursAt(g, lt, k);
      } else if k + |lt| <= |s| {
        var m := |g| - k;
        assert s[|g|] == t[0] == '<';
        assert lt[m] == name[m - 1];
        assert s[k..k + |lt|][m] == s[|g|];
      }
    }
  }

  /** The first `>` from `from` on is the one at `e - 1` when none comes before it. */
  lemma FindCharFirst(s: string, ch: char, from: nat, e: nat)
    requires from < e <= |s| && s[e - 1] == ch
    requires forall j :: from <= j < e - 1 ==> s[j] != ch
    ensures FindChar(s, ch, from) == Some(e - 1)
  {
  }

  /** After a gap without `<name`, the first tag is the tag that follows the gap. */
  lemma FirstTagAfterGap(g: string, t: string, rest: string, name: string)
    requires '<' !in name
    requires !Contains(g, Opening(name)) && IsTag(t, name)
    ensures FirstTag(g + t + rest, name) == Some(Span(|g|, |g| + |t|))
  {
    OpeningAfterGap(g, t, rest, name);
    IndexOfFirst(g + t + rest, Opening(name), |g|);
    TagEndAfterGap(g, t, rest, name);
  }

  /** The first `>` after the opening of a tag that follows a gap is the tag's last character. */
  lemma TagEndAfterGap(g: string, t: string, rest: string, name: string)
    requires IsTag(t, name)
    ensures FindChar(g + t + rest, '>', |g| + |Opening(name)|) == Some(|g| + |t| - 1)
  {
    var s := g + t + rest;
    forall j | |g| + |Opening(name)| <= j < |g| + |t| - 1
      ensures s[j] != '>'
    {
      assert s[j] == t[j - |g|];
    }
    assert s[|g| + |t| - 1] == t[|t| - 1];
    FindCharFirst(s, '>', |g| + |Opening(name)|, |g| + |t|);
  }


  /** `html.replace(/<name([^>]*)>/g, t)` on html made of plain gaps and tags:
      every tag is replaced by `t`, every gap is kept. */
  lemma {:induction false} ReplaceAllTagsAssembled(gaps: seq<string>, tags: seq<string>, name: string, t: string)
    requires '<' !in name
    requires |gaps| == |tags| + 1 && PlainGaps(gaps, name) && AllTags(tags, name)
    ensures ReplaceAllTags(Assemble(gaps, tags), name, t) == Assemble(gaps, Repeat(t, |tags|))
    decreases |tags|
  {
    if tags == [] {
      assert FirstTag(gaps[0], name).None?;
    } else {
      var rest := Assemble(gaps[1..], tags[1..]);
      var html := gaps[0] + tags[0] + rest;
      FirstTagAfterGap(gaps[0], tags[0], rest, name);
      assert html[..|gaps[0]|] == gaps[0];
      assert html[|gaps[0]| + |tags[0]|..] == rest;
      ReplaceAllTagsAssembled(gaps[1..], tags[1..], name, t);
      assert Repeat(t, |tags|)[1..] == Repeat(t, |tags[1..]|);
    }
  }

  /** `addProp` on markup made of plain gaps and `<target…>` tags: with no tag it
      throws; otherwise EVERY tag is replaced by the rewrite of the FIRST tag, so
      the attributes of the later tags are lost.  The decomposition leaves out
      markup whose text after the last tag still holds a `<target` with no
      later `>`; `addProp` rewrites every tag there too, but this lemma does not
      cover it. */
  lemma AddPropRewritesEveryTag(camel: CamelCase, propName: string, propValue: string, target: string,
                                gaps: seq<string>, tags: seq<string>, lang: Lang)
    requires '<' !in target
    requires |gaps| == |tags| + 1 && PlainGaps(gaps, target) && AllTags(tags, target)
    ensures tags == [] ==> AddProp(camel, propName, propValue, target, Assemble(gaps, tags), lang).Err?
    ensures tags != [] ==>
      AddProp(camel, propName, propValue, target, Assemble(gaps, tags), lang)
      == Ok(Assemble(gaps, Repeat(RewriteTag(tags[0], camel(propName, false),
                                              Binding(lang, camel(propName, false), propValue)), |tags|)))
  {
    var html := Assemble(gaps, tags);
    if tags == [] {
      assert FirstTag(html, target).None?;
    } else {
      var rest := Assemble(gaps[1..], tags[1..]);
      FirstTagAfterGap(gaps[0], tags[0], rest, target);
      assert html[|gaps[0]|..|gaps[0]| + |tags[0]|] == tags[0];
      var prop := camel(propName, false);
      ReplaceAllTagsAssembled(gaps, tags, target, RewriteTag(tags[0], prop, Binding(lang, prop, propValue)));
    }
  }

  // ---------------------------------------------------------------------------
  // convertDataAttributesToJsxAttributes

  /** `m` is, as a whole, one match of `([a-zA-Z0-9-]+)="([^"]+)"`. */
  predicate IsDataAttribute(m: string)
  {
    DataAttrAt(m, 0) == Some(|m|)
  }

  lemma {:induction false} NameRunInSlice(s: string, lo: nat, hi: nat, i: nat)
    requires lo <= i <= |s| && hi <= |s|
    requires NameRunEnd(s, i) < hi
    ensures NameRunEnd(s[lo..hi], i - lo) == NameRunEnd(s, i) - lo
    decreases |s| - i
  {
    if i < |s| && IsNameChar(s[i]) {
      NameRunInSlice(s, lo, hi, i + 1);
      assert s[lo..hi][i - lo] == s[i];
    } else {
      assert s[lo..hi][i - lo] == s[i];
    }
  }

  lemma FindCharInSlice(s: string, ch: char, v: nat, lo: nat, hi: nat)
    requires lo <= v && hi <= |s|
    requires FindChar(s, ch, v).Some? && FindChar(s, ch, v).value < hi
    ensures FindChar(s[lo..hi], ch, v - lo) == Some(FindChar(s, ch, v).value - lo)
  {
    var q := FindChar(s, ch, v).value;
    var t := s[lo..hi];
    assert t[q - lo] == ch;
    assert forall k :: v - lo <= k < q - lo ==> t[k] == s[k + lo];
    assert FindChar(t, ch, v - lo).Some?;
  }

  /** The text of a match, taken on its own, is again one whole match. */
  lemma DataAttrInSlice(s: string, k: nat)
    requires DataAttrAt(s, k).Some?
    ensures IsDataAttribute(s[k..DataAttrAt(s, k).value])
  {
    var end := DataAttrAt(s, k).value;
    var m := s[k..end];
    var e := NameRunEnd(s, k);
    DataAttrAtParts(s, k);
    NameRunInSlice(s, k, end, k);
    assert OccursAt(m, "=\"", e - k) by {
      assert m[e - k..e - k + 2] == s[e..e + 2];
    }
    FindCharInSlice(s, '"', e + 2, k, end);
  }

  /** A match at k: the name run ends at e > k, `="` follows, and the match ends
      just after the first quote from e + 2 on, which is not at e + 2. */
  lemma DataAttrAtParts(s: string, k: nat)
    requires DataAttrAt(s, k).Some?
    ensures var e := NameRunEnd(s, k);
            && k < e && OccursAt(s, "=\"", e)
            && FindChar(s, '"', e + 2).Some?
            && e + 2 < FindChar(s, '"', e + 2).value
            && DataAttrAt(s, k).value == FindChar(s, '"', e + 2).value + 1
  {
  }

  /** Every text `svg.match(/…/g)` returns is one whole match. */
  lemma {:induction false} DataAttributesAreMatches(s: string, from: nat)
    ensures forall i :: 0 <= i < |DataAttributes(s, from)| ==> IsDataAttribute(DataAttributes(s, from)[i])
    decreases |s| - from
  {
    match DataAttrFrom(s, from)
    case None =>
    case Some(sp) =>
      DataAttrInSlice(s, sp.start);
      DataAttributesAreMatches(s, sp.end);
  }

  /** A whole match is `name="value"`: a non-empty run of `[a-zA-Z0-9-]`, then a
      non-empty value without quotes; `AttributeName` and `AttributeValue` are its groups. */
  lemma DataAttributeParts(m: string)
    requires IsDataAttribute(m)
    ensures m == AttributeName(m) + "=\"" + AttributeValue(m) + "\""
    ensures |AttributeName(m)| > 0 && forall i :: 0 <= i < |AttributeName(m)| ==> IsNameChar(AttributeName(m)[i])
    ensures |AttributeValue(m)| > 0 && '"' !in AttributeValue(m)
  {
    var e := NameRunEnd(m, 0);
    assert m[e..e + 2] == "=\"";
    var q := FindChar(m, '"', e + 2).value;
    assert q + 1 == |m|;
    assert m == m[..e] + m[e..e + 2] + m[e + 2..|m| - 1] + [m[|m| - 1]];
  }

  /** Every matched attribute, and the text that replaces it: the value is kept,
      only the name goes through `camelCase`. */
  lemma ConvertRenamesNamesOnly(camel: CamelCase, svg: string, i: nat)
    requires i < |DataAttributes(svg, 0)|
    ensures var m := DataAttributes(svg, 0)[i];
            exists name: string, value: string ::
              && |name| > 0 && (forall j :: 0 <= j < |name| ==> IsNameChar(name[j]))
              && |value| > 0 && '"' !in value
              && m == name + "=\"" + value + "\""
              && Renamed(camel, m) == camel(name, false) + "=\"" + value + "\""
  {
    DataAttributesAreMatches(svg, 0);
    RenamedParts(camel, DataAttributes(svg, 0)[i]);
  }

  lemma RenamedParts(camel: CamelCase, m: string)
    requires IsDataAttribute(m)
    ensures exists name: string, value: string ::
              && |name| > 0 && (forall j :: 0 <= j < |name| ==> IsNameChar(name[j]))
              && |value| > 0 && '"' !in value
              && m == name + "=\"" + value + "\""
              && Renamed(camel, m) == camel(name, false) + "=\"" + value + "\""
  {
    DataAttributeParts(m);
    var name, value := AttributeName(m), AttributeValue(m);
    assert Renamed(camel, m) == camel(name, false) + "=\"" + value + "\"";
  }

  lemma ReplaceFirstSame(s: string, p: string)
    ensures ReplaceFirst(s, p, p) == s
  {
    match IndexOf(s, p)
    case None =>
    case Some(i) =>
      assert s[i..i + |p|] == p;
      assert s == s[..i] + s[i..i + |p|] + s[i + |p|..];
  }

  lemma {:induction false} RenameEachIdentity(camel: CamelCase, svg: string, ms: seq<string>)
    requires forall i :: 0 <= i < |ms| ==> IsDataAttribute(ms[i])
    requires forall i :: 0 <= i < |ms| ==> camel(AttributeName(ms[i]), false) == AttributeName(ms[i])
    ensures RenameEach(camel, svg, ms) == svg
    decreases |ms|
  {
    if ms != [] {
      DataAttributeParts(ms[0]);
      assert Renamed(camel, ms[0]) == ms[0];
      ReplaceFirstSame(svg, ms[0]);
      RenameEachIdentity(camel, svg, ms[1..]);
    }
  }

  /** The conversion changes nothing but names: when `camelCase` leaves every
      matched name as it is, the markup comes back unchanged. */
  lemma ConvertKeepsMarkupWhenNamesAreCamel(camel: CamelCase, svg: string)
    requires forall i :: 0 <= i < |DataAttributes(svg, 0)| ==>
               camel(AttributeName(DataAttributes(svg, 0)[i]), false) == AttributeName(DataAttributes(svg, 0)[i])
    ensures ConvertedAttributes(camel, svg) == svg
  {
    DataAttributesAreMatches(svg, 0);
    RenameEachIdentity(camel, svg, DataAttributes(svg, 0));
  }

  /** Markup with no `name="non-empty"` match is returned unchanged. */
  lemma ConvertWithoutMatches(camel: CamelCase, svg: string)
    requires forall k: nat :: DataAttrAt(svg, k).None?
    ensures ConvertedAttributes(camel, svg) == svg
  {
    assert DataAttrFrom(svg, 0).None?;
  }
}
