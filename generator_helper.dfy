/** `GeneratorHelper`: renders an attribute argument (a typed constant) as the
    C# expression that is written into generated code. */
module GeneratorHelper {
  import opened Strings
  import opened Collections
  import opened Symbols

  /** The formatter handles the five known constant kinds and throws on any
      other; a constant it can render holds no constant of another kind. */
  predicate Supported(c: Constant)
    decreases c
  {
    match c
    case UnknownKind => false
    case Array(vs) => forall i :: 0 <= i < |vs| ==> Supported(vs[i])
    case _ => true
  }

  /** `s.Replace("\"", "\\\"")`: the only escaping applied to a string value. */
  function EscapeQuotes(s: string): string {
    ReplaceAll(s, "\"", "\\\"")
  }

  /** `FormatAttributeArgument`: null, then by kind (an empty array is the
      empty string, meaning the argument is left out), then by value. The
      rendering is empty, so that a caller drops the argument, exactly for an
      empty array or for a value whose own text is empty; a string renders
      as a quoted literal. */
  function FormatAttributeArgument(arg: Constant): (r: string)
    requires Supported(arg)
    ensures r == "" <==> arg == Array([]) || arg == Literal(Some(""))
    ensures arg.Str? ==> |r| >= 2 && r[0] == '"' && r[|r| - 1] == '"'
    decreases arg, 1
  {
    match arg
    case Null => "null"
    case Array(vs) =>
      if |vs| == 0 then "" else "new[] {" + Join(", ", FormatEach(vs)) + "}"
    case TypeOf(t) => "typeof(" + t.display + ")"
    case Str(s) => "\"" + EscapeQuotes(s) + "\""
    case Bool(b) => if b then "true" else "false"
    case Char(c) => "'" + [c] + "'"
    case Literal(shown) => if shown.Some? then shown.value else "null"
    case UnknownKind => assert false; ""
  }

  /** `values.Select(FormatAttributeArgument)`. */
  function FormatEach(vs: seq<Constant>): (r: seq<string>)
    requires forall i :: 0 <= i < |vs| ==> Supported(vs[i])
    ensures |r| == |vs|
    ensures forall i :: 0 <= i < |vs| ==> r[i] == FormatAttributeArgument(vs[i])
    decreases vs, 0
  {
    if vs == [] then [] else [FormatAttributeArgument(vs[0])] + FormatEach(vs[1..])
  }

  /** `GetConstructorArgument(attribute, index)`: the constructor argument at
      `index` when there is one and it holds a string. */
  function GetConstructorArgument(attr: Attr, index: nat): (r: Option<string>)
    ensures r.Some? <==> index < |attr.ctorArgs| && attr.ctorArgs[index].Str?
    ensures r.Some? ==> r.value == attr.ctorArgs[index].text
  {
    if index < |attr.ctorArgs| && attr.ctorArgs[index].Str? then Some(attr.ctorArgs[index].text) else None
  }

  /** Reads back a quote-escaped text: `\"` stands for `"`, every other
      character for itself. */
  function UnescapeQuotes(t: string): string
    decreases |t|
  {
    if t == [] then []
    else if |t| >= 2 && t[0] == '\\' && t[1] == '"' then "\"" + UnescapeQuotes(t[2..])
    else [t[0]] + UnescapeQuotes(t[1..])
  }

  /** Escaping one character at a time. */
  lemma EscapeQuotesStep(s: string)
    requires s != []
    ensures EscapeQuotes(s) == (if s[0] == '"' then "\\\"" else [s[0]]) + EscapeQuotes(s[1..])
  {
    ReplaceCharStep(s, '"', "\\\"");
  }

  /** An escaped text never starts with a bare quote. */
  lemma EscapedDoesNotStartWithQuote(s: string)
    ensures EscapeQuotes(s) == [] || EscapeQuotes(s)[0] != '"'
  {
    if s != [] {
      EscapeQuotesStep(s);
    }
  }

  /** Every quote in an escaped text is preceded by a backslash, so no quote
      of the value can end the literal early. */
  lemma {:induction false} EscapedQuotesArePreceded(s: string)
    ensures var e := EscapeQuotes(s);
            forall i :: 0 <= i < |e| && e[i] == '"' ==> i > 0 && e[i - 1] == '\\'
    decreases |s|
  {
    if s == [] {
      assert EscapeQuotes(s) == [];
    } else {
      EscapeQuotesStep(s);
      EscapedQuotesArePreceded(s[1..]);
      EscapedDoesNotStartWithQuote(s[1..]);
      var head := if s[0] == '"' then "\\\"" else [s[0]];
      var e, tail := EscapeQuotes(s), EscapeQuotes(s[1..]);
      assert e == head + tail;
      forall i | 0 <= i < |e| && e[i] == '"'
        ensures i > 0 && e[i - 1] == '\\'
      {
        if i >= |head| {
          assert tail[i - |head|] == '"';
          if i - |head| > 0 {
            assert tail[i - |head| - 1] == '\\';
          }
        }
      }
    }
  }

  /** Unescaping undoes escaping: the string value can be read back from its rendering. */
  lemma {:induction false} UnescapeEscapeQuotes(s: string)
    ensures UnescapeQuotes(EscapeQuotes(s)) == s
    decreases |s|
  {
    if s != [] {
      EscapeQuotesStep(s);
      UnescapeEscapeQuotes(s[1..]);
      var tail := EscapeQuotes(s[1..]);
      if s[0] == '"' {
        assert ("\\\"" + tail)[2..] == tail;
      } else {
        EscapedDoesNotStartWithQuote(s[1..]);
        assert ([s[0]] + tail)[1..] == tail;
      }
      assert s == [s[0]] + s[1..];
    }
  }

  /** A string renders as a quoted literal from which the value is recovered. */
  lemma StringLiteralRoundTrip(s: string)
    ensures var t := FormatAttributeArgument(Str(s));
            |t| >= 2 && t[0] == '"' && t[|t| - 1] == '"' && UnescapeQuotes(t[1..|t| - 1]) == s
  {
    var t := FormatAttributeArgument(Str(s));
    assert t[1..|t| - 1] == EscapeQuotes(s);
    UnescapeEscapeQuotes(s);
  }

  /** Backslashes are not escaped: the one-character value `\` renders as
      `"\"`, whose closing quote C# reads as an escaped quote. */
  lemma BackslashIsNotEscaped()
    ensures FormatAttributeArgument(Str("\\")) == "\"\\\""
  {
    ReplaceCharAbsent("\\", '"', "\\\"");
  }
}
