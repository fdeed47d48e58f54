/** The markup rewriter of `src/svg-to-react-component.ts`: `addProp`,
    `addElement` and `convertDataAttributesToJsxAttributes`.  Each regular
    expression the source builds is encoded as an explicit search, and a
    global `replace` as "find the leftmost match in the rest of the text,
    replace it, continue after it". */
module Markup {
  import opened Text

  /** A half-open range [start, end) of a text. */
  datatype Span = Span(start: nat, end: nat)

  /** The two binding syntaxes of `addProp`. */
  datatype Lang = Jsx | Vue

  function Opening(name: string): string
  {
    "<" + name
  }

  // ---------------------------------------------------------------------------
  // The pattern `<name([^>]*)>`

  /** A match of `<name([^>]*)>` can start at k: `<name` is there and some `>` follows it. */
  predicate TagStartsAt(html: string, name: string, k: nat)
  {
    OccursAt(html, Opening(name), k)
    && exists j :: k + |Opening(name)| <= j < |html| && html[j] == '>'
  }

  predicate HasTag(html: string, name: string)
  {
    exists k: nat :: k <= |html| && TagStartsAt(html, name, k)
  }

  /** html[sp.start..sp.end] is the match of `<name([^>]*)>` that starts at sp.start:
      `<name`, then no `>`, then the first `>`. */
  predicate TagAt(html: string, name: string, sp: Span)
  {
    OccursAt(html, Opening(name), sp.start)
    && sp.start + |Opening(name)| < sp.end <= |html|
    && html[sp.end - 1] == '>'
    && forall j :: sp.start + |Opening(name)| <= j < sp.end - 1 ==> html[j] != '>'
  }

  /** A whole text that is one `<name…>` tag. */
  predicate IsTag(t: string, name: string)
  {
    TagAt(t, name, Span(0, |t|))
  }

  /** `html.match(new RegExp('<' + name + '([^>]*)>', 'g'))[0]`: the leftmost match. */
  function FirstTag(html: string, name: string): (r: Option<Span>)
    ensures r.Some? ==> TagAt(html, name, r.value)
    ensures r.Some? ==> forall k: nat :: k < r.value.start ==> !TagStartsAt(html, name, k)
    ensures r.None? <==> !HasTag(html, name)
  {
    var lt := Opening(name);
    match IndexOf(html, lt)
    case None => None
    case Some(i) =>
      match FindChar(html, '>', i + |lt|)
      case None => None
      case Some(j) =>
        assert TagStartsAt(html, name, i);
        Some(Span(i, j + 1))
  }

  /** `html.replace(new RegExp('<' + name + '([^>]*)>', 'g'), t)`. */
  function ReplaceAllTags(html: string, name: string, t: string): string
    decreases |html|
  {
    match FirstTag(html, name)
    case None => html
    case Some(sp) => html[..sp.start] + t + ReplaceAllTags(html[sp.end..], name, t)
  }

  // ---------------------------------------------------------------------------
  // The pattern `prop="[^"]+"` and the pattern `/>|>`

  /** After an opening quote at `v - 1`: the end of `[^"]+"`, if the value is non-empty. */
  function QuotedEnd(s: string, v: nat): (r: Option<nat>)
    ensures r.Some? ==> v < r.value <= |s| && s[r.value - 1] == '"' && r.value - 1 > v
    ensures r.Some? ==> forall k :: v <= k < r.value - 1 ==> s[k] != '"'
  {
    match FindChar(s, '"', v)
    case None => None
    case Some(q) => if q > v then Some(q + 1) else None
  }

  /** A match of `prop="[^"]+"` starts at k, where `lit` is `prop="`. */
  predicate QuotedAttrAt(s: string, lit: string, k: nat)
  {
    OccursAt(s, lit, k) && QuotedEnd(s, k + |lit|).Some?
  }

  /** The leftmost match of `prop="[^"]+"` at or after `from`. */
  function QuotedAttrFrom(s: string, lit: string, from: nat): (r: Option<Span>)
    ensures r.Some? ==> from <= r.value.start < r.value.end <= |s|
    ensures r.Some? ==> QuotedAttrAt(s, lit, r.value.start)
    ensures r.Some? ==> r.value.end == QuotedEnd(s, r.value.start + |lit|).value
    ensures r.Some? ==> forall k: nat :: from <= k < r.value.start ==> !QuotedAttrAt(s, lit, k)
    ensures r.None? ==> forall k: nat :: from <= k ==> !QuotedAttrAt(s, lit, k)
    decreases |s| - from
  {
    if from + |lit| > |s| then None
    else if QuotedAttrAt(s, lit, from) then Some(Span(from, QuotedEnd(s, from + |lit|).value))
    else QuotedAttrFrom(s, lit, from + 1)
  }

  /** `s.replace(new RegExp(prop + '="[^"]+"', 'g'), full)`, where `lit` is `prop="`. */
  function ReplaceQuotedAttrs(s: string, lit: string, full: string): string
    decreases |s|
  {
    match QuotedAttrFrom(s, lit, 0)
    case None => s
    case Some(sp) => s[..sp.start] + full + ReplaceQuotedAttrs(s[sp.end..], lit, full)
  }

  /** `s.replace(new RegExp('/>|>', 'g'), ' ' + full + '$&')`: every `/>` or
      `>` (tried in that order at each position) gets ` full` in front of it. */
  function InsertBeforeClose(s: string, full: string): string
  {
    if s == [] then []
    else if |s| >= 2 && s[0] == '/' && s[1] == '>' then " " + full + "/>" + InsertBeforeClose(s[2..], full)
    else if s[0] == '>' then " " + full + ">" + InsertBeforeClose(s[1..], full)
    else [s[0]] + InsertBeforeClose(s[1..], full)
  }

  // ---------------------------------------------------------------------------
  // addProp

  /** The binding `addProp` writes: `prop={value}` for JSX, `:prop="value"` for Vue. */
  function Binding(lang: Lang, prop: string, value: string): string
  {
    match lang
    case Jsx => prop + "={" + value + "}"
    case Vue => ":" + prop + "=\"" + value + "\""
  }

  /** The text `prop="` that `addProp` looks for in the tag. */
  function AttrLiteral(prop: string): string
  {
    prop + "=\""
  }

  /** The rewrite `addProp` applies to the first tag. */
  function RewriteTag(tag: string, prop: string, full: string): string
  {
    if Contains(tag, AttrLiteral(prop)) then ReplaceQuotedAttrs(tag, AttrLiteral(prop), full)
    else InsertBeforeClose(tag, full)
  }

  /** What JavaScript throws when `match` returns null and `[0]` is read from it. */
  const NullMatchError := "TypeError: Cannot read properties of null (reading '0')"

  /** `addProp(propName, propValue, targetElement, html, lang)`. */
  function AddProp(camel: CamelCase, propName: string, propValue: string, target: string,
                   html: string, lang: Lang): (r: Result<string>)
    ensures r.Err? <==> !HasTag(html, target)
    ensures r.Err? ==> r.message == NullMatchError
  {
    var prop := camel(propName, false);
    var full := Binding(lang, prop, propValue);
    match FirstTag(html, target)
    case None => Err(NullMatchError)
    case Some(sp) =>
      var rewritten := RewriteTag(html[sp.start..sp.end], prop, full);
      Ok(ReplaceAllTags(html, target, rewritten))
  }

  // ---------------------------------------------------------------------------
  // addElement

  /** `<name>content</name>`. */
  function Element(name: string, content: string): string
  {
    "<" + name + ">" + content + "</" + name + ">"
  }

  const SvgClose := "</svg>"

  /** `addElement(elementName, elementContent, siblingElement, html)`. */
  function AddElement(camel: CamelCase, elementName: string, content: string, sibling: string,
                      html: string): (r: string)
    ensures forall i: nat :: FirstAt(html, Opening(sibling), i) ==>
              r == html[..i] + Element(camel(elementName, false), content) + html[i..]
    ensures !Contains(html, Opening(sibling)) ==>
              forall i: nat :: FirstAt(html, SvgClose, i) ==>
                r == html[..i] + Element(camel(elementName, false), content) + html[i..]
    ensures !Contains(html, Opening(sibling)) && !Contains(html, SvgClose) ==> r == html
  {
    var full := Element(camel(elementName, false), content);
    var lt := Opening(sibling);
    match IndexOf(html, lt)
    case None =>
      var r := ReplaceFirst(html, SvgClose, full + SvgClose);
      InsertedBefore(html, SvgClose, full);
      r
    case Some(_) =>
      var r := ReplaceFirst(html, lt, full + lt);
      InsertedBefore(html, lt, full);
      r
  }

  /** Replacing the first `p` by `full + p` inserts `full` just before it. */
  lemma InsertedBefore(html: string, p: string, full: string)
    ensures forall i: nat :: FirstAt(html, p, i) ==>
              ReplaceFirst(html, p, full + p) == html[..i] + full + html[i..]
    ensures !Contains(html, p) ==> ReplaceFirst(html, p, full + p) == html
  {
    forall i: nat | FirstAt(html, p, i)
      ensures ReplaceFirst(html, p, full + p) == html[..i] + full + html[i..]
    {
      InsertedBeforeAt(html, p, full, i);
    }
  }

  lemma InsertedBeforeAt(html: string, p: string, full: string, i: nat)
    requires FirstAt(html, p, i)
    ensures ReplaceFirst(html, p, full + p) == html[..i] + full + html[i..]
  {
    ReplaceFirstAt(html, p, full + p, i);
    var before, after := html[..i], html[i + |p|..];
    assert html[i..] == p + after;
    assert before + (full + p) + after == before + full + (p + after);
  }

  // ---------------------------------------------------------------------------
  // convertDataAttributesToJsxAttributes: the pattern `([a-zA-Z0-9-]+)="([^"]+)"`

  predicate IsNameChar(ch: char)
  {
    'a' <= ch <= 'z' || 'A' <= ch <= 'Z' || '0' <= ch <= '9' || ch == '-'
  }

  /** The end of the run of name characters that starts at k. */
  function NameRunEnd(s: string, k: nat): (e: nat)
    requires k <= |s|
    ensures k <= e <= |s|
    ensures forall i :: k <= i < e ==> IsNameChar(s[i])
    ensures e < |s| ==> !IsNameChar(s[e])
    decreases |s| - k
  {
    if k < |s| && IsNameChar(s[k]) then NameRunEnd(s, k + 1) else k
  }

  /** The end of the match of `([a-zA-Z0-9-]+)="([^"]+)"` that starts at k, if any.
      The name is the whole run of name characters (a shorter one is followed by a
      name character, not by `=`), the value runs to the first quote. */
  function DataAttrAt(s: string, k: nat): (r: Option<nat>)
    ensures r.Some? ==> k < r.value <= |s|
  {
    if k >= |s| then None
    else
      var e := NameRunEnd(s, k);
      if e > k && OccursAt(s, "=\"", e) then QuotedEnd(s, e + 2) else None
  }

  /** The leftmost match at or after `from`. */
  function DataAttrFrom(s: string, from: nat): (r: Option<Span>)
    ensures r.Some? ==> from <= r.value.start < r.value.end <= |s|
    ensures r.Some? ==> DataAttrAt(s, r.value.start) == Some(r.value.end)
    decreases |s| - from
  {
    if from >= |s| then None
    else
      match DataAttrAt(s, from)
      case Some(e) => Some(Span(from, e))
      case None => DataAttrFrom(s, from + 1)
  }

  /** No match starts in `from..r.start` when `r` is a match, none at or after `from` when it is none. */
  ghost predicate LeftmostFrom(s: string, from: nat, r: Option<Span>)
  {
    && (r.Some? ==> forall k: nat :: from <= k < r.value.start ==> DataAttrAt(s, k).None?)
    && (r.None? ==> forall k: nat :: from <= k ==> DataAttrAt(s, k).None?)
  }

  /** The match found is the leftmost one, and none is found only when there is none. */
  lemma {:induction false} DataAttrFromLeftmost(s: string, from: nat)
    ensures LeftmostFrom(s, from, DataAttrFrom(s, from))
    decreases |s| - from
  {
    if from >= |s| {
      LeftmostPastEnd(s, from);
    } else if DataAttrAt(s, from).None? {
      DataAttrFromLeftmost(s, from + 1);
      LeftmostSkip(s, from, DataAttrFrom(s, from + 1));
    }
  }

  lemma LeftmostPastEnd(s: string, from: nat)
    requires from >= |s|
    ensures LeftmostFrom(s, from, None)
  {
    forall k: nat | from <= k
      ensures DataAttrAt(s, k).None?
    {
    }
  }

  /** No match at `from`: what holds from `from + 1` on holds from `from` on. */
  lemma LeftmostSkip(s: string, from: nat, r: Option<Span>)
    requires DataAttrAt(s, from).None?
    requires LeftmostFrom(s, from + 1, r)
    ensures LeftmostFrom(s, from, r)
  {
    if r.Some? {
      forall k: nat | from <= k < r.value.start
        ensures DataAttrAt(s, k).None?
      {
        if k > from {
          assert from + 1 <= k;
        }
      }
    } else {
      forall k: nat | from <= k
        ensures DataAttrAt(s, k).None?
      {
        if k > from {
          assert from + 1 <= k;
        }
      }
    }
  }

  /** `s.match(/([a-zA-Z0-9-]+)="([^"]+)"/g)` from `from` on: the matched texts in order. */
  function DataAttributes(s: string, from: nat): seq<string>
    decreases |s| - from
  {
    match DataAttrFrom(s, from)
    case None => []
    case Some(sp) => [s[sp.start..sp.end]] + DataAttributes(s, sp.end)
  }

  /** Group 1 of the pattern matched at the start of `m`. */
  function AttributeName(m: string): string
  {
    m[..NameRunEnd(m, 0)]
  }

  /** Group 2 of the pattern matched at the start of `m` (the match is all of `m`). */
  function AttributeValue(m: string): string
  {
    var e := NameRunEnd(m, 0);
    if e + 2 <= |m| - 1 then m[e + 2..|m| - 1] else []
  }

  /** `` `${camelCase(name)}="${value}"` `` for a matched attribute `m`. */
  function Renamed(camel: CamelCase, m: string): string
  {
    camel(AttributeName(m), false) + "=\"" + AttributeValue(m) + "\""
  }

  /** The loop body applied to each matched text in order: `svg.replace(m, renamed)`. */
  function RenameEach(camel: CamelCase, svg: string, ms: seq<string>): string
    decreases |ms|
  {
    if ms == [] then svg
    else RenameEach(camel, ReplaceFirst(svg, ms[0], Renamed(camel, ms[0])), ms[1..])
  }

  /** One more round of the loop: the first remaining match is renamed. */
  lemma RenameEachStep(camel: CamelCase, svg: string, ms: seq<string>, i: nat)
    requires i < |ms|
    ensures RenameEach(camel, svg, ms[i..])
         == RenameEach(camel, ReplaceFirst(svg, ms[i], Renamed(camel, ms[i])), ms[i + 1..])
  {
    assert ms[i..][1..] == ms[i + 1..];
  }

  /** What `convertDataAttributesToJsxAttributes(svg)` returns. */
  function ConvertedAttributes(camel: CamelCase, svg: string): string
  {
    var ms := DataAttributes(svg, 0);
    if ms == [] then svg else RenameEach(camel, svg, ms)
  }

  /** `convertDataAttributesToJsxAttributes`: collect the matches, then rename
      each one, in match order, at its first occurrence in the current text. */
  method ConvertDataAttributesToJsxAttributes(camel: CamelCase, svg: string) returns (out: string)
    ensures out == ConvertedAttributes(camel, svg)
  {
    var dataAttributes := DataAttributes(svg, 0);
    if dataAttributes == [] {
      return svg;
    }
    out := svg;
    var i := 0;
    while i < |dataAttributes|
      invariant 0 <= i <= |dataAttributes|
      invariant RenameEach(camel, out, dataAttributes[i..]) == RenameEach(camel, svg, dataAttributes)
    {
      var dataAttribute := dataAttributes[i];
      RenameEachStep(camel, out, dataAttributes, i);
      out := ReplaceFirst(out, dataAttribute, Renamed(camel, dataAttribute));
      i := i + 1;
    }
  }
}
