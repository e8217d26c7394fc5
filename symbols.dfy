/** The read-only view of the compilation that the generators query: type
    references, attribute data with their typed constants, members, declared
    types and the class-declaration syntax nodes they are discovered from.
    `ToDisplayString()` of a type or attribute class is the `display` text the
    host supplies. */
module Symbols {
  import opened Strings
  import opened Collections

  /** A type as the compiler shows it. `isNamed` tells a named type
      (`INamedTypeSymbol`: a class, struct, interface, enum or delegate) from
      an array, pointer or type parameter. `isGeneric` (`IsGenericType`) is a
      property of named types only; a constructed generic type also carries
      its generic definition's display text (`ConstructedFrom`) and its type
      arguments. */
  datatype TypeRef = TypeRef(display: string, isNamed: bool, isGeneric: bool, definitionDisplay: string, typeArgs: seq<TypeRef>)

  /** A typed constant as an attribute argument holds it. `Literal` is any
      other primitive or enum value through its `ToString()` (which may give
      null); `UnknownKind` is a constant of a kind other than the five that
      `TypedConstantKind` names. */
  datatype Constant =
    | Null
    | Array(elements: seq<Constant>)
    | TypeOf(typ: TypeRef)
    | Str(text: string)
    | Bool(flag: bool)
    | Char(ch: char)
    | Literal(shown: Option<string>)
    | UnknownKind

  datatype NamedArg = NamedArg(key: string, value: Constant)

  /** The attribute's class: simple name, display name, simple name of its base class, type arguments. */
  datatype AttrClass = AttrClass(name: string, display: string, baseName: Option<string>, typeArgs: seq<TypeRef>)

  /** `AttributeData`; its class is missing when the compiler could not bind it. */
  datatype Attr = Attr(cls: Option<AttrClass>, ctorArgs: seq<Constant>, namedArgs: seq<NamedArg>)

  datatype Param = Param(name: string, typ: TypeRef)

  datatype MethodKind = Ordinary | Constructor | Accessor | OtherKind

  datatype MethodSymbol = MethodSymbol(name: string, kind: MethodKind, returnType: TypeRef, params: seq<Param>, attrs: seq<Attr>)

  datatype PropertySymbol = PropertySymbol(name: string, typ: TypeRef)

  datatype Member = MethodMember(sig: MethodSymbol) | PropertyMember(prop: PropertySymbol) | OtherMember(memberName: string)

  /** A declared named type: its simple name, containing namespace, itself as
      a type reference, whether it is an interface, the interfaces it
      implements, its attributes and its members, all in declaration order. */
  datatype Decl = Decl(
    name: string,
    namespace: string,
    self: TypeRef,
    isInterface: bool,
    interfaces: seq<TypeRef>,
    attrs: seq<Attr>,
    members: seq<Member>)

  /** A syntax node the generators' predicates look at. A class declaration
      has an identity, its identifier, the attribute names as written in each
      of its attribute lists, whether it has the `partial` modifier and the
      symbol the semantic model declares for it. */
  datatype SyntaxNode =
    | ClassSyntax(id: nat, identifier: string, attributeLists: seq<seq<string>>, isPartial: bool, symbol: Option<Decl>)
    | OtherSyntax(id: nat)

  datatype Severity = Warning | Error

  /** A reported diagnostic: id, severity, message arguments and the formatted message. */
  datatype Diagnostic = Diagnostic(id: string, severity: Severity, args: seq<string>, message: string)

  predicate IsOrdinaryMethod(m: Member) {
    m.MethodMember? && m.sig.kind == Ordinary
  }

  /** `sigs` are the signatures of the method members `kept`, one for one. */
  predicate SignaturesOf(sigs: seq<MethodSymbol>, kept: seq<Member>) {
    |sigs| == |kept| && forall i :: 0 <= i < |sigs| ==> kept[i] == MethodMember(sigs[i])
  }

  /** `GetMembers().OfType<IMethodSymbol>().Where(m => m.MethodKind == MethodKind.Ordinary)`:
      the signatures of the ordinary-method members, one per member, in
      declaration order. */
  function OrdinaryMethods(members: seq<Member>): (r: seq<MethodSymbol>)
    ensures SignaturesOf(r, Filter(members, IsOrdinaryMethod))
    ensures forall m :: m in r <==> MethodMember(m) in members && m.kind == Ordinary
  {
    if members == [] then []
    else
      var rest := OrdinaryMethods(members[1..]);
      var head := if IsOrdinaryMethod(members[0]) then [members[0].sig] else [];
      assert Filter(members, IsOrdinaryMethod)
          == (if IsOrdinaryMethod(members[0]) then [members[0]] else []) + Filter(members[1..], IsOrdinaryMethod);
      SignaturesOfAppend(head, rest, if IsOrdinaryMethod(members[0]) then [members[0]] else [], Filter(members[1..], IsOrdinaryMethod));
      assert forall m :: MethodMember(m) in members <==> MethodMember(m) == members[0] || MethodMember(m) in members[1..] by {
        assert members == [members[0]] + members[1..];
      }
      head + rest
  }

  lemma SignaturesOfAppend(s1: seq<MethodSymbol>, s2: seq<MethodSymbol>, k1: seq<Member>, k2: seq<Member>)
    requires SignaturesOf(s1, k1) && SignaturesOf(s2, k2)
    ensures SignaturesOf(s1 + s2, k1 + k2)
  {
    forall i | 0 <= i < |s1 + s2|
      ensures (k1 + k2)[i] == MethodMember((s1 + s2)[i])
    {
      if i >= |s1| {
        assert (k1 + k2)[i] == k2[i - |s1|];
      }
    }
  }

  predicate IsProperty(m: Member) {
    m.PropertyMember?
  }

  /** `GetMembers().OfType<IPropertySymbol>()`: the property members, one
      per member, in declaration order. */
  function PropertiesOf(members: seq<Member>): (r: seq<PropertySymbol>)
    ensures |r| == |Filter(members, IsProperty)|
    ensures forall i :: 0 <= i < |r| ==> Filter(members, IsProperty)[i] == PropertyMember(r[i])
    ensures forall p :: p in r <==> PropertyMember(p) in members
    ensures |r| <= |members|
  {
    if members == [] then []
    else
      var rest := PropertiesOf(members[1..]);
      assert Filter(members, IsProperty)
          == (if IsProperty(members[0]) then [members[0]] else []) + Filter(members[1..], IsProperty);
      assert forall p :: PropertyMember(p) in members <==> PropertyMember(p) == members[0] || PropertyMember(p) in members[1..] by {
        assert members == [members[0]] + members[1..];
      }
      (if IsProperty(members[0]) then [members[0].prop] else []) + rest
  }

  /** The test both syntax predicates apply to an attribute name as written:
      `X` + "Attribute" or `X`, either alone or followed by a type-argument list. */
  predicate AttributeNameMatches(name: string, syntaxName: string) {
    var full := syntaxName + "Attribute";
    name == full || StartsWith(name, full + "<") || name == syntaxName || StartsWith(name, syntaxName + "<")
  }

  /** A name matches exactly when the part in front of its first `<` is the
      short or the full attribute name. */
  lemma AttributeNameMatchesByHead(name: string, syntaxName: string)
    requires '<' !in syntaxName
    ensures AttributeNameMatches(name, syntaxName)
        <==> (TextBefore(name, '<') == syntaxName || TextBefore(name, '<') == syntaxName + "Attribute")
  {
    var full := syntaxName + "Attribute";
    var head := TextBefore(name, '<');
    assert '<' !in full by {
      assert forall i :: 0 <= i < |full| ==> full[i] == if i < |syntaxName| then syntaxName[i] else "Attribute"[i - |syntaxName|];
    }
    forall x | x == syntaxName || x == full
      ensures (name == x || StartsWith(name, x + "<")) <==> head == x
    {
      if name == x {
        assert IndexOf(name, '<') == -1;
      } else if StartsWith(name, x + "<") {
        assert name[|x|] == '<' && name[..|x|] == x;
        IndexOfFirst(name, '<', |x|);
      }
      if head == x {
        if |head| < |name| {
          assert name[..|x| + 1] == x + "<";
        } else {
          assert name == head;
        }
      }
    }
  }

  /** The name test holds for some attribute exactly when, for some attribute,
      the text in front of its first `<` is the short or the full name. */
  lemma SomeAttributeNamedByHead(lists: seq<seq<string>>, syntaxName: string)
    requires '<' !in syntaxName
    ensures (exists i, j :: 0 <= i < |lists| && 0 <= j < |lists[i]| && AttributeNameMatches(lists[i][j], syntaxName))
        <==> (exists i, j :: 0 <= i < |lists| && 0 <= j < |lists[i]| && IsAttributeHead(TextBefore(lists[i][j], '<'), syntaxName))
  {
    if exists i, j :: 0 <= i < |lists| && 0 <= j < |lists[i]| && AttributeNameMatches(lists[i][j], syntaxName) {
      var i, j :| 0 <= i < |lists| && 0 <= j < |lists[i]| && AttributeNameMatches(lists[i][j], syntaxName);
      AttributeNameMatchesByHead(lists[i][j], syntaxName);
    }
    if exists i, j :: 0 <= i < |lists| && 0 <= j < |lists[i]| && IsAttributeHead(TextBefore(lists[i][j], '<'), syntaxName) {
      var i, j :| 0 <= i < |lists| && 0 <= j < |lists[i]| && IsAttributeHead(TextBefore(lists[i][j], '<'), syntaxName);
      AttributeNameMatchesByHead(lists[i][j], syntaxName);
    }
  }

  predicate IsAttributeHead(head: string, syntaxName: string) {
    head == syntaxName || head == syntaxName + "Attribute"
  }

  /** Whether some attribute, in some attribute list, has a matching name. */
  function AnyAttributeNamed(lists: seq<seq<string>>, syntaxName: string): (r: bool)
    ensures r <==> exists i, j :: 0 <= i < |lists| && 0 <= j < |lists[i]| && AttributeNameMatches(lists[i][j], syntaxName)
  {
    if lists == [] then false
    else
      var here := FirstIndex(lists[0], name => AttributeNameMatches(name, syntaxName)).Some?;
      var later := AnyAttributeNamed(lists[1..], syntaxName);
      assert later ==> exists i, j :: 0 <= i < |lists| && 0 <= j < |lists[i]| && AttributeNameMatches(lists[i][j], syntaxName) by {
        if later {
          var i, j :| 0 <= i < |lists[1..]| && 0 <= j < |lists[1..][i]| && AttributeNameMatches(lists[1..][i][j], syntaxName);
          assert lists[i + 1][j] == lists[1..][i][j];
        }
      }
      assert (exists i, j :: 0 <= i < |lists| && 0 <= j < |lists[i]| && AttributeNameMatches(lists[i][j], syntaxName)) ==> here || later by {
        if exists i, j :: 0 <= i < |lists| && 0 <= j < |lists[i]| && AttributeNameMatches(lists[i][j], syntaxName) {
          var i, j :| 0 <= i < |lists| && 0 <= j < |lists[i]| && AttributeNameMatches(lists[i][j], syntaxName);
          if i > 0 {
            assert lists[1..][i - 1][j] == lists[i][j];
          }
        }
      }
      here || later
  }
}
