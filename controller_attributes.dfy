/** The attributes of a facade method that are re-stated on its generated
    endpoint: every attribute except the HTTP-verb attribute, rendered with
    its fully-qualified name and its formatted arguments. */
module ControllerAttributes {
  import opened Strings
  import opened Collections
  import opened Symbols
  import opened GeneratorHelper

  const HttpMethodAttributeBaseName := "HttpMethodAttributeBase"

  /** A verb attribute is one whose class derives directly from `HttpMethodAttributeBase`. */
  predicate IsHttpMethodAttribute(a: Attr) {
    a.cls.Some? && a.cls.value.baseName == Some(HttpMethodAttributeBaseName)
  }

  /** An attribute is copied when it is bound to a class and is not a verb attribute. */
  predicate IsCopied(a: Attr) {
    !IsHttpMethodAttribute(a) && a.cls.Some?
  }

  predicate SupportedAttr(a: Attr) {
    && (forall i :: 0 <= i < |a.ctorArgs| ==> Supported(a.ctorArgs[i]))
    && (forall i :: 0 <= i < |a.namedArgs| ==> Supported(a.namedArgs[i].value))
  }

  /** Only the copied attributes are formatted, so only their constants
      must be of a kind the formatter accepts. */
  predicate SupportedAttrs(attrs: seq<Attr>) {
    forall i :: 0 <= i < |attrs| && IsCopied(attrs[i]) ==> SupportedAttr(attrs[i])
  }

  /** The fully-qualified class name without a trailing `Attribute`. */
  function AttributeName(c: AttrClass): string {
    TrimSuffix(c.display, "Attribute")
  }

  /** A constant the formatter accepts and renders to a non-empty text. */
  predicate RendersToText(c: Constant) {
    Supported(c) && FormatAttributeArgument(c) != ""
  }

  /** The constructor arguments that render to something, in order: the
      texts kept are the renderings of the arguments kept. */
  function PositionalArgumentTexts(args: seq<Constant>): (r: seq<string>)
    requires forall i :: 0 <= i < |args| ==> Supported(args[i])
    ensures r == FormatEach(Filter(args, RendersToText))
  {
    FilterFormatEach(args);
    Filter(FormatEach(args), (s: string) => s != "")
  }

  /** Dropping the empty texts after formatting is dropping, before
      formatting, the arguments that format to the empty text. */
  lemma {:induction false} FilterFormatEach(args: seq<Constant>)
    requires forall i :: 0 <= i < |args| ==> Supported(args[i])
    ensures Filter(FormatEach(args), (s: string) => s != "") == FormatEach(Filter(args, RendersToText))
    decreases |args|
  {
    if args != [] {
      FilterFormatEach(args[1..]);
      var texts := FormatEach(args);
      assert texts[1..] == FormatEach(args[1..]);
      var kept := Filter(args, RendersToText);
      assert kept == (if RendersToText(args[0]) then [args[0]] else []) + Filter(args[1..], RendersToText);
      if RendersToText(args[0]) {
        assert FormatEach(kept) == [FormatAttributeArgument(args[0])] + FormatEach(kept[1..]);
      }
    }
  }

  /** Each named argument as `Key = value`, in order. */
  function NamedArgumentTexts(args: seq<NamedArg>): (r: seq<string>)
    requires forall i :: 0 <= i < |args| ==> Supported(args[i].value)
    ensures |r| == |args|
    ensures forall i :: 0 <= i < |args| ==> r[i] == args[i].key + " = " + FormatAttributeArgument(args[i].value)
  {
    if args == [] then []
    else [args[0].key + " = " + FormatAttributeArgument(args[0].value)] + NamedArgumentTexts(args[1..])
  }

  /** The attribute text as the generator builds it. Where the attribute has
      only constructor arguments, or only named ones, it is the C# attribute
      syntax (`RenderAttribute`). */
  function RenderAttributeAsWritten(a: Attr): (r: string)
    requires a.cls.Some? && SupportedAttr(a)
    ensures |a.ctorArgs| == 0 || |a.namedArgs| == 0 ==> r == RenderAttribute(a)
  {
    var name, positional, named := AttributeName(a.cls.value), PositionalArgumentTexts(a.ctorArgs), NamedArgumentTexts(a.namedArgs);
    assert |a.ctorArgs| == 0 ==> positional == [];
    assert |a.namedArgs| == 0 ==> named == [];
    assert |a.ctorArgs| == 0 || |a.namedArgs| == 0 ==>
             AttributeSectionAsWritten(name, |a.ctorArgs| > 0, positional, named) == AttributeSection(name, positional, named) by {
      if |a.ctorArgs| == 0 || |a.namedArgs| == 0 {
        SectionsAgreeWithoutMixedArguments(name, |a.ctorArgs| > 0, positional, named);
      }
    }
    AttributeSectionAsWritten(name, |a.ctorArgs| > 0, positional, named)
  }

  /** The generator's text for an attribute from its name, whether it has
      constructor arguments, the rendered positional arguments and the named
      ones: positional arguments in parentheses when any render; named
      arguments opening their own parentheses when there are no constructor
      arguments, and otherwise appended after `, ` behind the closing
      parenthesis. */
  function AttributeSectionAsWritten(name: string, hasCtorArgs: bool, positional: seq<string>, named: seq<string>): string {
    var text := "[" + name;
    var withPositional :=
      if hasCtorArgs && |positional| > 0 then text + "(" + Join(", ", positional) + ")" else text;
    var withNamed :=
      if |named| > 0 then
        withPositional + (if !hasCtorArgs then "(" else ", ")
        + Join(", ", named)
        + (if !hasCtorArgs then ")" else "")
      else withPositional;
    withNamed + "]"
  }

  /** A C# attribute section holding one attribute: its name, then a single
      argument list with the positional arguments before the named ones,
      left out when there are no arguments (section 22.3 of the C# language
      standard, "Attribute specification"). */
  function AttributeSyntax(name: string, positional: seq<string>, named: seq<string>): string {
    var arguments := positional + named;
    "[" + name + (if arguments == [] then "" else "(" + Join(", ", arguments) + ")") + "]"
  }

  /** The corrected rendering: named arguments go inside the same
      parentheses, after the positional ones. */
  function RenderAttribute(a: Attr): (r: string)
    requires a.cls.Some? && SupportedAttr(a)
    ensures r == AttributeSyntax(AttributeName(a.cls.value), PositionalArgumentTexts(a.ctorArgs), NamedArgumentTexts(a.namedArgs))
  {
    var name := AttributeName(a.cls.value);
    var positional := PositionalArgumentTexts(a.ctorArgs);
    var named := NamedArgumentTexts(a.namedArgs);
    AttributeSectionIsSyntax(name, positional, named);
    AttributeSection(name, positional, named)
  }

  /** The corrected attribute text, split into cases: unlike the generator,
      it puts the separator between the two argument kinds inside the
      parentheses. */
  function AttributeSection(name: string, positional: seq<string>, named: seq<string>): string {
    if positional == [] && named == [] then
      "[" + name + "]"
    else
      var arguments :=
        if positional == [] then Join(", ", named)
        else if named == [] then Join(", ", positional)
        else Join(", ", positional) + ", " + Join(", ", named);
      "[" + name + "(" + arguments + ")" + "]"
  }

  lemma AttributeSectionIsSyntax(name: string, positional: seq<string>, named: seq<string>)
    ensures AttributeSection(name, positional, named) == AttributeSyntax(name, positional, named)
  {
    JoinConcat(", ", positional, named);
    if positional == [] {
      assert positional + named == named;
    } else if named == [] {
      assert positional + named == positional;
    }
  }

  /** Joining two lists is joining each and separating the two results. */
  lemma {:induction false} JoinConcat(sep: string, a: seq<string>, b: seq<string>)
    ensures Join(sep, a + b)
         == Join(sep, a) + (if |a| > 0 && |b| > 0 then sep else "") + Join(sep, b)
    decreases |a|
  {
    if |a| == 0 {
      assert a + b == b;
    } else if |a| == 1 {
      if |b| > 0 {
        assert (a + b)[1..] == b;
      }
    } else {
      assert (a + b)[1..] == a[1..] + b;
      JoinConcat(sep, a[1..], b);
    }
  }

  lemma SectionsAgreeWithoutMixedArguments(name: string, hasCtorArgs: bool, positional: seq<string>, named: seq<string>)
    requires !hasCtorArgs ==> positional == []
    requires !hasCtorArgs || named == []
    ensures AttributeSectionAsWritten(name, hasCtorArgs, positional, named) == AttributeSection(name, positional, named)
  {
  }

  /** With both kinds of arguments the generator closes the parentheses
      before the named arguments, or opens none when no positional argument
      renders: `[System.Obsolete(true), DiagnosticId = null]` or
      `[System.Obsolete, DiagnosticId = null]`, where the text after the
      comma is not an attribute. The C# syntax is never produced then. */
  lemma MixedArgumentsMisplaced(a: Attr)
    requires a.cls.Some? && SupportedAttr(a)
    requires |a.ctorArgs| > 0 && |a.namedArgs| > 0
    ensures RenderAttributeAsWritten(a)
         == (var name, positional := AttributeName(a.cls.value), PositionalArgumentTexts(a.ctorArgs);
             "[" + name + (if positional == [] then "" else "(" + Join(", ", positional) + ")")
             + ", " + Join(", ", NamedArgumentTexts(a.namedArgs)) + "]")
    ensures RenderAttributeAsWritten(a) != RenderAttribute(a)
  {
    SectionsDisagreeOnMixedArguments(AttributeName(a.cls.value), PositionalArgumentTexts(a.ctorArgs), NamedArgumentTexts(a.namedArgs));
  }

  lemma SectionsDisagreeOnMixedArguments(name: string, positional: seq<string>, named: seq<string>)
    requires named != []
    ensures AttributeSectionAsWritten(name, true, positional, named)
         == "[" + name + (if positional == [] then "" else "(" + Join(", ", positional) + ")")
            + ", " + Join(", ", named) + "]"
    ensures AttributeSectionAsWritten(name, true, positional, named) != AttributeSection(name, positional, named)
  {
    if positional == [] {
      NoPositionalSectionsDisagree(name, named);
    } else {
      PositionalSectionsDisagree(name, positional, named);
    }
  }

  lemma NoPositionalSectionsDisagree(name: string, named: seq<string>)
    requires named != []
    ensures AttributeSectionAsWritten(name, true, [], named)[1 + |name|] == ','
    ensures AttributeSection(name, [], named)[1 + |name|] == '('
  {
    var w, c := AttributeSectionAsWritten(name, true, [], named), AttributeSection(name, [], named);
    var k := Join(", ", named);
    var head := "[" + name;
    assert w == head + ", " + k + "" + "]";
    assert c == head + "(" + k + ")" + "]";
    assert w[|head|] == ',' && c[|head|] == '(';
  }

  lemma PositionalSectionsDisagree(name: string, positional: seq<string>, named: seq<string>)
    requires positional != [] && named != []
    ensures var at := 2 + |name| + |Join(", ", positional)|;
            && AttributeSectionAsWritten(name, true, positional, named)[at] == ')'
            && AttributeSection(name, positional, named)[at] == ','
  {
    var p, k := Join(", ", positional), Join(", ", named);
    assert AttributeSectionAsWritten(name, true, positional, named) == "[" + name + "(" + p + ")" + ", " + k + "" + "]";
    assert AttributeSection(name, positional, named) == "[" + name + "(" + (p + ", " + k) + ")" + "]";
    ClosingBeforeSeparator(name, p, k);
  }

  /** Where the two texts first differ: right after the positional arguments. */
  lemma ClosingBeforeSeparator(name: string, p: string, k: string)
    ensures var at := 2 + |name| + |p|;
            && ("[" + name + "(" + p + ")" + ", " + k + "" + "]")[at] == ')'
            && ("[" + name + "(" + (p + ", " + k) + ")" + "]")[at] == ','
  {
  }

  /** The lines of the copied attributes, in source order. */
  function CopiedAttributeLines(attrs: seq<Attr>): seq<string>
    requires SupportedAttrs(attrs)
    decreases |attrs|
  {
    if attrs == [] then []
    else
      var last := attrs[|attrs| - 1];
      CopiedAttributeLines(attrs[..|attrs| - 1]) + (if IsCopied(last) then [RenderAttribute(last)] else [])
  }

  /** Verb attributes and unbound attributes are dropped; every other
      attribute gives one line, in source order. */
  lemma {:induction false} CopiedAttributesInOrder(attrs: seq<Attr>)
    requires SupportedAttrs(attrs)
    ensures var kept := Filter(attrs, IsCopied);
            && |CopiedAttributeLines(attrs)| == |kept|
            && (forall i :: 0 <= i < |kept| ==>
                  kept[i].cls.Some? && SupportedAttr(kept[i])
                  && CopiedAttributeLines(attrs)[i] == RenderAttribute(kept[i]))
    decreases |attrs|
  {
    if attrs != [] {
      var init, last := attrs[..|attrs| - 1], attrs[|attrs| - 1];
      assert attrs == init + [last];
      CopiedAttributesInOrder(init);
      FilterAppend(init, [last], IsCopied);
    }
  }

  /** An attribute with both constructor and named arguments, the one case
      where the generator's text is not the attribute syntax. */
  predicate MixesArguments(a: Attr) {
    |a.ctorArgs| > 0 && |a.namedArgs| > 0
  }

  /** The copied-attribute lines as the generator writes them. */
  function CopiedAttributeLinesAsWritten(attrs: seq<Attr>): seq<string>
    requires SupportedAttrs(attrs)
    decreases |attrs|
  {
    if attrs == [] then []
    else
      var last := attrs[|attrs| - 1];
      CopiedAttributeLinesAsWritten(attrs[..|attrs| - 1]) + (if IsCopied(last) then [RenderAttributeAsWritten(last)] else [])
  }

  /** The generator's lines and the corrected ones are the same whenever no
      copied attribute mixes the two kinds of argument; the difference is
      confined to those attributes (`MixedArgumentsMisplaced`). */
  lemma {:induction false} CopiedLinesAgreeWithoutMixedArguments(attrs: seq<Attr>)
    requires SupportedAttrs(attrs)
    requires forall i :: 0 <= i < |attrs| && IsCopied(attrs[i]) ==> !MixesArguments(attrs[i])
    ensures CopiedAttributeLinesAsWritten(attrs) == CopiedAttributeLines(attrs)
    decreases |attrs|
  {
    if attrs != [] {
      var init := attrs[..|attrs| - 1];
      assert forall i :: 0 <= i < |init| ==> init[i] == attrs[i];
      CopiedLinesAgreeWithoutMixedArguments(init);
    }
  }

  /** Copying the attributes of a facade method (the loop over
      `method.GetAttributes()`). */
  method CopyAttributes(attrs: seq<Attr>) returns (lines: seq<string>)
    requires SupportedAttrs(attrs)
    ensures lines == CopiedAttributeLines(attrs)
  {
    lines := [];
    for i := 0 to |attrs|
      invariant lines == CopiedAttributeLines(attrs[..i])
    {
      var attribute := attrs[i];
      assert attrs[..i + 1][..i] == attrs[..i];
      if IsHttpMethodAttribute(attribute) {
        continue;
      }
      if attribute.cls.None? {
        continue;
      }
      lines := lines + [RenderAttribute(attribute)];
    }
    assert attrs[..|attrs|] == attrs;
  }
}
