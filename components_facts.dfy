/** What the component templates do with the markup they are given: a Vue
    component exists exactly when the SVG holds a `<path`, and then its
    `<title>` sits just before the first `<path` of the rewritten text. */
module ComponentFacts {
  import opened Text
  import opened Markup
  import opened Components

  const PathOpening := "<path"

  // ---------------------------------------------------------------------------
  // Where `<path` can occur in a concatenation

  lemma NoOccurrenceWithoutFirstChar(s: string, p: string)
    requires |p| >= 1 && p[0] !in s
    ensures !Contains(s, p)
  {
    forall i: nat | i <= |s|
      ensures !OccursAt(s, p, i)
    {
      if i + |p| <= |s| {
        assert s[i..i + |p|][0] == s[i];
      }
    }
  }

  /** An occurrence in `a + b` lies in `a`, in `b`, or straddles the seam; it
      cannot straddle when `a` has no first character of `p` or when `b` starts
      with a character that only the first position of `p` holds. */
  lemma NoOccurrenceConcat(a: string, b: string, p: string)
    requires |p| >= 1
    requires !Contains(a, p) && !Contains(b, p)
    requires p[0] !in a || (|b| >= 1 && b[0] !in p[1..])
    ensures !Contains(a + b, p)
  {
    var s := a + b;
    forall k: nat | k <= |s|
      ensures !OccursAt(s, p, k)
    {
      if k + |p| <= |s| {
        if k + |p| <= |a| {
          assert s[k..k + |p|] == a[k..k + |p|];
          assert !OccursAt(a, p, k);
        } else if k >= |a| {
          assert s[k..k + |p|] == b[k - |a|..k - |a| + |p|];
          assert !OccursAt(b, p, k - |a|);
        } else if p[0] !in a {
          assert s[k..k + |p|][0] == a[k];
        } else {
          assert s[k..k + |p|][|a| - k] == b[0];
          assert p[1..][|a| - k - 1] == p[|a| - k];
        }
      }
    }
  }

  /** Appending a line that starts with a tab or a newline keeps `<path` out. */
  lemma AppendLine(s: string, line: string)
    requires !Contains(s, PathOpening) && !Contains(line, PathOpening)
    requires |line| >= 1 && (line[0] == '\t' || line[0] == '\n')
    ensures !Contains(s + line, PathOpening)
  {
    NoOccurrenceConcat(s, line, PathOpening);
  }

  lemma AppendPlainLine(s: string, line: string)
    requires !Contains(s, PathOpening) && '<' !in line
    requires |line| >= 1 && (line[0] == '\t' || line[0] == '\n')
    ensures !Contains(s + line, PathOpening)
  {
    NoOccurrenceWithoutFirstChar(line, PathOpening);
    AppendLine(s, line);
  }

  /** The lines of the Vue template that hold a `<` are not `<path` lines. */
  lemma TagLineWithoutPath(line: string)
    requires line == ScriptOpenLine || line == ScriptCloseLine
      || line == TemplateOpenLine || line == TemplateCloseLine
    ensures !Contains(line, PathOpening)
    ensures |line| >= 1 && line[0] == '\t'
  {
    forall i: nat | i <= |line|
      ensures !OccursAt(line, PathOpening, i)
    {
      if i + 5 <= |line| {
        assert line[i..i + 5][0] == line[i];
        assert line[i..i + 5][1] == line[i + 1];
      }
    }
  }

  /** The fixed lines of the Vue script block hold no `<`. */
  lemma ImportLinePlain()
    ensures '<' !in ImportLine
  {
  }

  lemma ExportLinePlain()
    ensures '<' !in ExportLine
  {
  }

  lemma PropLinesPlain()
    ensures '<' !in TypeStringLine && '<' !in PropCloseLine
  {
  }

  lemma ColorPropPlain()
    ensures '<' !in VueColorProp
  {
    PropLinesPlain();
    assert '<' !in DefaultColor;
  }

  lemma TitlePropPlain(componentName: string)
    requires '<' !in componentName
    ensures '<' !in VueTitleProp(componentName)
  {
    PropLinesPlain();
  }

  /** The `props` block of the Vue template holds no `<`. */
  lemma VuePropsPlain(componentName: string)
    requires '<' !in componentName
    ensures '<' !in VueProps(componentName)
    ensures |VueProps(componentName)| >= 1 && VueProps(componentName)[0] == '\t'
  {
    ColorPropPlain();
    TitlePropPlain(componentName);
  }

  /** The lines of the script block after its opening tag hold no `<`. */
  lemma VueScriptSetupPlain(componentName: string)
    requires '<' !in componentName
    ensures '<' !in VueScriptSetup(componentName)
    ensures |VueScriptSetup(componentName)| >= 1 && VueScriptSetup(componentName)[0] == '\t'
  {
    ImportLinePlain();
    ExportLinePlain();
  }

  /** The opening of the script block holds no `<path`. */
  lemma VueScriptOpenWithoutPath(componentName: string)
    requires '<' !in componentName
    ensures !Contains(VueScriptOpen(componentName), PathOpening)
  {
    TagLineWithoutPath(ScriptOpenLine);
    NoOccurrenceWithoutFirstChar("\n", PathOpening);
    AppendLine("\n", ScriptOpenLine);
    VueScriptSetupPlain(componentName);
    AppendPlainLine("\n" + ScriptOpenLine, VueScriptSetup(componentName));
  }

  /** The close of the script block and the `<template>` opening hold no `<path`. */
  lemma VueScriptCloseWithoutPath()
    ensures !Contains(VueScriptClose, PathOpening)
    ensures |VueScriptClose| >= 1 && VueScriptClose[0] == '\t'
  {
    TagLineWithoutPath(ScriptCloseLine);
    TagLineWithoutPath(TemplateOpenLine);
    AppendPlainLine(ScriptCloseLine, "\n");
    AppendLine(ScriptCloseLine + "\n", TemplateOpenLine);
  }

  /** The lines of the Vue template before the SVG hold no `<path`. */
  lemma VueHeadWithoutPath(componentName: string)
    requires '<' !in componentName
    ensures !Contains(VueHead(componentName), PathOpening)
  {
    VueScriptOpenWithoutPath(componentName);
    VuePropsPlain(componentName);
    AppendPlainLine(VueScriptOpen(componentName), VueProps(componentName));
    VueScriptCloseWithoutPath();
    AppendLine(VueScriptOpen(componentName) + VueProps(componentName), VueScriptClose);
  }

  lemma VueTailWithoutPath()
    ensures !Contains(VueTemplateTail, PathOpening)
    ensures |VueTemplateTail| >= 1 && VueTemplateTail[0] == '\n' && '>' in VueTemplateTail
  {
    TagLineWithoutPath(TemplateCloseLine);
    NoOccurrenceWithoutFirstChar("\n", PathOpening);
    AppendLine("\n", TemplateCloseLine);
    AppendPlainLine("\n" + TemplateCloseLine, "\t");
  }

  /** Text wrapped around an SVG: `head`, two tabs, the SVG, then `tail`. */
  lemma WrappedPath(head: string, svgContent: string, tail: string)
    requires !Contains(head, PathOpening) && !Contains(tail, PathOpening)
    requires |tail| >= 1 && tail[0] == '\n' && '>' in tail
    ensures Contains(head + "\t\t" + svgContent + tail, PathOpening) <==> Contains(svgContent, PathOpening)
    ensures Contains(svgContent, PathOpening) ==> HasTag(head + "\t\t" + svgContent + tail, "path")
  {
    var whole := head + "\t\t" + svgContent + tail;
    assert whole == head + ("\t\t" + (svgContent + tail));
    if Contains(svgContent, PathOpening) {
      var k: nat :| k <= |svgContent| && OccursAt(svgContent, PathOpening, k);
      var at := |head| + 2 + k;
      assert whole[at..at + 5] == svgContent[k..k + 5];
      assert OccursAt(whole, Opening("path"), at);
      var j :| 0 <= j < |tail| && tail[j] == '>';
      assert whole[|head| + 2 + |svgContent| + j] == '>';
      assert TagStartsAt(whole, "path", at);
    } else {
      NoOccurrenceConcat(svgContent, tail, PathOpening);
      NoOccurrenceWithoutFirstChar("\t\t", PathOpening);
      NoOccurrenceConcat("\t\t", svgContent + tail, PathOpening);
      AppendLine(head, "\t\t" + (svgContent + tail));
    }
  }

  /** Around the SVG the Vue template adds no `<path`; the closing lines add a `>`. */
  lemma VueTemplatePath(componentName: string, svgContent: string)
    requires '<' !in componentName
    ensures Contains(VueTemplate(componentName, svgContent), PathOpening) <==> Contains(svgContent, PathOpening)
    ensures Contains(svgContent, PathOpening) ==> HasTag(VueTemplate(componentName, svgContent), "path")
  {
    VueHeadWithoutPath(componentName);
    VueTailWithoutPath();
    WrappedPath(VueHead(componentName), svgContent, VueTemplateTail);
  }

  /** `createVueComponent` throws exactly when the SVG holds no `<path`: an
      SVG made of other shapes never reaches the `</svg>` branch of
      `addElement`, because `addProp` has already thrown. */
  lemma VueComponentNeedsPath(camel: CamelCase, svgContent: string, componentName: string)
    requires '<' !in componentName
    ensures VueComponent(camel, svgContent, componentName).Ok? <==> Contains(svgContent, PathOpening)
    ensures VueComponent(camel, svgContent, componentName).Err? ==>
              VueComponent(camel, svgContent, componentName).message == NullMatchError
  {
    VueTemplatePath(componentName, svgContent);
    var t := VueTemplate(componentName, svgContent);
    if !Contains(svgContent, PathOpening) {
      forall k: nat | k <= |t|
        ensures !TagStartsAt(t, "path", k)
      {
        assert Opening("path") == PathOpening;
      }
    }
  }

  // ---------------------------------------------------------------------------
  // The rewritten first tag still opens with `<name`

  /** When no match of `prop="[^"]+"` starts before m, the replacement keeps s[..m]. */
  lemma ReplaceQuotedAttrsKeepsPrefix(s: string, lit: string, full: string, m: nat)
    requires m <= |s|
    requires forall k: nat :: k < m ==> !QuotedAttrAt(s, lit, k)
    ensures StartsWith(ReplaceQuotedAttrs(s, lit, full), s[..m])
  {
    match QuotedAttrFrom(s, lit, 0)
    case None =>
    case Some(sp) =>
      assert m <= sp.start;
      var r := ReplaceQuotedAttrs(s, lit, full);
      assert r[..m] == s[..sp.start][..m];
  }

  /** Before the first `>` or `/>`, `InsertBeforeClose` copies its input. */
  lemma {:induction false} InsertBeforeCloseKeepsPrefix(s: string, full: string, m: nat)
    requires m <= |s|
    requires forall j :: 0 <= j < m ==> s[j] != '>'
    requires forall j :: 0 <= j < m && j + 1 < |s| ==> !(s[j] == '/' && s[j + 1] == '>')
    ensures StartsWith(InsertBeforeClose(s, full), s[..m])
  {
    if m > 0 {
      assert !(|s| >= 2 && s[0] == '/' && s[1] == '>');
      InsertBeforeCloseKeepsPrefix(s[1..], full, m - 1);
      var r := InsertBeforeClose(s, full);
      assert r == [s[0]] + InsertBeforeClose(s[1..], full);
      assert r[..m] == [s[0]] + InsertBeforeClose(s[1..], full)[..m - 1];
      assert s[..m] == [s[0]] + s[1..][..m - 1];
    }
  }

  /** The rewrite of a `<name…>` tag keeps its `<name`, provided the attribute
      literal cannot start inside it and the name does not end in `/`. */
  lemma RewriteTagKeepsOpening(tag: string, name: string, prop: string, full: string)
    requires IsTag(tag, name) && '>' !in name
    requires |prop| >= 1 && prop[0] !in Opening(name)
    requires name == [] || name[|name| - 1] != '/'
    ensures StartsWith(RewriteTag(tag, prop, full), Opening(name))
  {
    var lt := Opening(name);
    var lit := AttrLiteral(prop);
    assert tag[..|lt|] == lt;
    if Contains(tag, lit) {
      forall k: nat | k < |lt|
        ensures !QuotedAttrAt(tag, lit, k)
      {
        if k + |lit| <= |tag| {
          assert tag[k..k + |lit|][0] == tag[k] == lt[k];
        }
      }
      ReplaceQuotedAttrsKeepsPrefix(tag, lit, full, |lt|);
    } else {
      forall j | 0 <= j < |lt|
        ensures tag[j] != '>'
      {
        assert tag[j] == lt[j];
        if j > 0 {
          assert lt[j] == name[j - 1];
        }
      }
      forall j | 0 <= j < |lt| && j + 1 < |tag|
        ensures !(tag[j] == '/' && tag[j + 1] == '>')
      {
        if j + 1 < |lt| {
          assert tag[j + 1] == lt[j + 1] == name[j];
        } else {
          assert tag[j] == lt[j] == if name == [] then '<' else name[|name| - 1];
        }
      }
      InsertBeforeCloseKeepsPrefix(tag, full, |lt|);
    }
  }

  /** Replacing the tags with a text that opens with `<name` leaves `<name`
      where the first tag was, and nothing earlier. */
  lemma ReplaceAllTagsFirst(html: string, name: string, t: string, sp: Span)
    requires FirstTag(html, name) == Some(sp)
    requires StartsWith(t, Opening(name))
    ensures FirstAt(ReplaceAllTags(html, name, t), Opening(name), sp.start)
  {
    var lt := Opening(name);
    var r := ReplaceAllTags(html, name, t);
    assert r == html[..sp.start] + t + ReplaceAllTags(html[sp.end..], name, t);
    assert IndexOf(html, lt) == Some(sp.start);
    assert r[..sp.start + |lt|] == html[..sp.start + |lt|] by {
      assert r[..sp.start + |lt|] == html[..sp.start] + t[..|lt|];
      assert html[..sp.start + |lt|] == html[..sp.start] + html[sp.start..sp.start + |lt|];
    }
    FirstAtSharedPrefix(html, r, lt, sp.start);
  }

  // ---------------------------------------------------------------------------
  // The Vue `<title>`

  /** Binding `fill` on the `<path…>` tags leaves a `<path` where the first
      tag was and none before it. */
  lemma AddFillKeepsFirstPath(camel: CamelCase, value: string, html: string, lang: Lang)
    requires camel("fill", false) == "fill"
    requires HasTag(html, "path")
    ensures AddProp(camel, "fill", value, "path", html, lang).Ok?
    ensures FirstAt(AddProp(camel, "fill", value, "path", html, lang).value, PathOpening,
                    FirstTag(html, "path").value.start)
  {
    assert Opening("path") == PathOpening;
    assert "fill"[0] !in Opening("path") && '>' !in "path" && "path"[3] != '/';
    AddPropKeepsFirstOpening(camel, "fill", value, "path", html, lang);
  }

  /** When the attribute name cannot start the opening `<target`, the rewritten
      first tag still starts with it, so the first `<target` stays where it was. */
  lemma AddPropKeepsFirstOpening(camel: CamelCase, propName: string, value: string, target: string,
                                 html: string, lang: Lang)
    requires HasTag(html, target) && '>' !in target
    requires target == [] || target[|target| - 1] != '/'
    requires |camel(propName, false)| >= 1 && camel(propName, false)[0] !in Opening(target)
    ensures AddProp(camel, propName, value, target, html, lang).Ok?
    ensures FirstAt(AddProp(camel, propName, value, target, html, lang).value, Opening(target),
                    FirstTag(html, target).value.start)
  {
    var sp := FirstTag(html, target).value;
    var tag := html[sp.start..sp.end];
    var prop := camel(propName, false);
    var full := Binding(lang, prop, value);
    FirstTagIsTag(html, target);
    RewriteTagKeepsOpening(tag, target, prop, full);
    var rewritten := RewriteTag(tag, prop, full);
    AddPropOfFirstTag(camel, propName, value, target, html, lang);
    ReplaceAllTagsFirst(html, target, rewritten, sp);
  }

  /** The text of the first match is, on its own, one whole tag. */
  lemma FirstTagIsTag(html: string, name: string)
    requires FirstTag(html, name).Some?
    ensures IsTag(html[FirstTag(html, name).value.start..FirstTag(html, name).value.end], name)
  {
    TagAtSlice(html, name, FirstTag(html, name).value);
  }

  lemma TagAtSlice(html: string, name: string, sp: Span)
    requires TagAt(html, name, sp)
    ensures IsTag(html[sp.start..sp.end], name)
  {
    var tag := html[sp.start..sp.end];
    assert tag[..|Opening(name)|] == html[sp.start..sp.start + |Opening(name)|];
    forall j | |Opening(name)| <= j < |tag| - 1
      ensures tag[j] != '>'
    {
      assert tag[j] == html[sp.start + j];
    }
  }

  /** With a tag present, `addProp` replaces every tag by the rewrite of the first. */
  lemma AddPropOfFirstTag(camel: CamelCase, propName: string, value: string, target: string,
                          html: string, lang: Lang)
    requires HasTag(html, target)
    ensures var sp := FirstTag(html, target).value;
            var prop := camel(propName, false);
            AddProp(camel, propName, value, target, html, lang)
            == Ok(ReplaceAllTags(html, target, RewriteTag(html[sp.start..sp.end], prop, Binding(lang, prop, value))))
  {
  }


  /** `addProp('fill', …, 'path')` followed by `addElement(…, 'path')` on a
      text with a `<path…>` tag puts the element just before the first `<path`. */
  lemma FillThenElement(camel: CamelCase, value: string, html: string, lang: Lang,
                        elementName: string, content: string)
    requires camel("fill", false) == "fill"
    requires HasTag(html, "path")
    ensures AddProp(camel, "fill", value, "path", html, lang).Ok?
    ensures var withFill := AddProp(camel, "fill", value, "path", html, lang).value;
            exists i: nat :: FirstAt(withFill, PathOpening, i)
              && AddElement(camel, elementName, content, "path", withFill)
                 == withFill[..i] + Element(camel(elementName, false), content) + withFill[i..]
  {
    AddFillKeepsFirstPath(camel, value, html, lang);
    assert Opening("path") == PathOpening;
  }

  /** When the SVG holds a `<path`, the `<title>` goes just before the first
      `<path` of the text `addProp` produced: the `</svg>` fallback of
      `addElement` is never taken. */
  lemma VueTitleBeforeFirstPath(camel: CamelCase, svgContent: string, componentName: string)
    requires '<' !in componentName && camel("fill", false) == "fill"
    requires Contains(svgContent, PathOpening)
    ensures VueWithFill(camel, svgContent, componentName).Ok?
    ensures var withFill := VueWithFill(camel, svgContent, componentName).value;
            exists i: nat :: FirstAt(withFill, PathOpening, i)
              && VueComponent(camel, svgContent, componentName)
                 == Ok(withFill[..i] + Element(camel("title", false), VueTitle(componentName)) + withFill[i..])
  {
    VueTemplatePath(componentName, svgContent);
    FillThenElement(camel, "color || '" + DefaultColor + "'", VueTemplate(componentName, svgContent), Vue,
                    "title", VueTitle(componentName));
  }

  // ---------------------------------------------------------------------------
  // React

  /** `createReactComponent` throws when the converted text has no `<path…>`
      tag or no `<svg…>` tag, always with the null-match `TypeError`. */
  lemma ReactComponentErrors(camel: CamelCase, svgContent: string, componentName: string)
    ensures var out := ConvertedAttributes(camel, ReactTemplate(componentName, svgContent));
            !HasTag(out, "path") ==> ReactComponent(camel, svgContent, componentName) == Err(NullMatchError)
    ensures ReactComponent(camel, svgContent, componentName).Err? ==>
              ReactComponent(camel, svgContent, componentName).message == NullMatchError
  {
  }

  // ---------------------------------------------------------------------------
  // The index file

  lemma ExportStatementOneLine(componentName: string)
    requires '\n' !in componentName
    ensures '\n' !in ExportStatement(componentName)
  {
  }

  /** Splitting the index text at newlines gives one export statement per
      component, in order, and the empty text after the last newline. */
  lemma IndexTextLines(components: seq<string>)
    requires forall i :: 0 <= i < |components| ==> '\n' !in components[i]
    ensures Split(IndexText(components), '\n') == ExportStatements(components) + [[]]
  {
    var lines := ExportStatements(components);
    forall i | 0 <= i < |lines|
      ensures '\n' !in lines[i]
    {
      ExportStatementOneLine(components[i]);
    }
    SplitTerminated(lines, '\n');
  }
}
