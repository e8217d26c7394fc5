/** `DtoGenerator`: a class marked `[Dto]` gains, in the generated half of
    the partial class, one auto-property per property of its entity type
    that it neither ignores nor declares itself. A class marked `[Dto]`
    without `partial` gets the MA002 error instead. */
module DtoGenerator {
  import opened Strings
  import opened Collections
  import opened Symbols

  const DtoAttributeSyntaxName := "Dto"
  const DtoAttributeName := "DtoAttribute"
  const IgnoredPropertiesKey := "IgnoredProperties"

  // ---------------------------------------------------------------- discovery

  /** `IsDtoClass`: a class declaration with an attribute written `Dto` or
      `DtoAttribute`, possibly with type arguments; `partial` is not
      required, so that the non-partial ones can be reported. */
  function IsDtoClass(node: SyntaxNode): (r: bool)
    ensures r <==> && node.ClassSyntax?
                   && exists i, j :: 0 <= i < |node.attributeLists| && 0 <= j < |node.attributeLists[i]|
                                     && AttributeNameMatches(node.attributeLists[i][j], DtoAttributeSyntaxName)
  {
    node.ClassSyntax? && |node.attributeLists| > 0 && AnyAttributeNamed(node.attributeLists, DtoAttributeSyntaxName)
  }

  /** A node is a candidate exactly when it is a class and the text in front
      of the first `<` of one of its attribute names is `Dto` or `DtoAttribute`. */
  lemma DtoCandidateByHead(node: SyntaxNode)
    ensures IsDtoClass(node)
        <==> && node.ClassSyntax?
             && exists i, j :: 0 <= i < |node.attributeLists| && 0 <= j < |node.attributeLists[i]|
                               && IsAttributeHead(TextBefore(node.attributeLists[i][j], '<'), DtoAttributeSyntaxName)
  {
    if node.ClassSyntax? {
      SomeAttributeNamedByHead(node.attributeLists, DtoAttributeSyntaxName);
    }
  }

  /** The symbol-level test: the attribute's class is `DtoAttribute`, or a
      generic class whose name starts with it. */
  predicate IsDtoAttribute(a: Attr) {
    && a.cls.Some?
    && (|| a.cls.value.name == DtoAttributeName
        || (StartsWith(a.cls.value.name, DtoAttributeName) && |a.cls.value.typeArgs| > 0))
  }

  /** The first `Dto` attribute of the declared symbol, when there is a symbol. */
  function DtoAttributeOf(node: SyntaxNode): (r: Option<Attr>)
    requires node.ClassSyntax?
    ensures r.None? <==> node.symbol.None? || forall i :: 0 <= i < |node.symbol.value.attrs| ==> !IsDtoAttribute(node.symbol.value.attrs[i])
    ensures r.Some? ==> exists k :: && 0 <= k < |node.symbol.value.attrs| && node.symbol.value.attrs[k] == r.value
                                    && IsDtoAttribute(r.value)
                                    && forall i :: 0 <= i < k ==> !IsDtoAttribute(node.symbol.value.attrs[i])
  {
    if node.symbol.None? then None
    else
      match FirstIndex(node.symbol.value.attrs, IsDtoAttribute)
      case None => None
      case Some(k) => Some(node.symbol.value.attrs[k])
  }

  // ---------------------------------------------------------------- the non-partial path

  function NonPartialMessage(className: string): string {
    "Class '" + className + "' with [Dto] attribute must be declared as partial"
  }

  /** MA002 for a candidate class declared without `partial`, naming the
      class by its symbol, or by its identifier when there is no symbol. */
  function NonPartialDtoDiagnostic(node: SyntaxNode): (d: Diagnostic)
    requires node.ClassSyntax?
    ensures d.id == "MA002" && d.severity == Error && |d.args| == 1
    ensures d.args[0] == (if node.symbol.Some? then node.symbol.value.name else node.identifier)
    ensures d.message == NonPartialMessage(d.args[0])
  {
    var name := if node.symbol.Some? then node.symbol.value.name else node.identifier;
    Diagnostic("MA002", Error, [name], NonPartialMessage(name))
  }

  /** `errors` are the MA002 errors of the nodes `kept`, one for one. */
  predicate DiagnosticsOf(errors: seq<Diagnostic>, kept: seq<SyntaxNode>) {
    && |errors| == |kept|
    && forall i :: 0 <= i < |errors| ==> kept[i].ClassSyntax? && errors[i] == NonPartialDtoDiagnostic(kept[i])
  }

  /** The MA002 errors for a list of nodes: one per non-partial candidate, in order. */
  function NonPartialDiagnostics(nodes: seq<SyntaxNode>): (r: seq<Diagnostic>)
    ensures DiagnosticsOf(r, Filter(nodes, IsNonPartialDto))
  {
    if nodes == [] then []
    else
      var head := if IsNonPartialDto(nodes[0]) then [NonPartialDtoDiagnostic(nodes[0])] else [];
      var rest := NonPartialDiagnostics(nodes[1..]);
      var keptHead := if IsNonPartialDto(nodes[0]) then [nodes[0]] else [];
      assert Filter(nodes, IsNonPartialDto) == keptHead + Filter(nodes[1..], IsNonPartialDto);
      DiagnosticsOfAppend(head, rest, keptHead, Filter(nodes[1..], IsNonPartialDto));
      head + rest
  }

  lemma DiagnosticsOfAppend(e1: seq<Diagnostic>, e2: seq<Diagnostic>, k1: seq<SyntaxNode>, k2: seq<SyntaxNode>)
    requires DiagnosticsOf(e1, k1) && DiagnosticsOf(e2, k2)
    ensures DiagnosticsOf(e1 + e2, k1 + k2)
  {
    forall i | 0 <= i < |e1 + e2|
      ensures (k1 + k2)[i].ClassSyntax? && (e1 + e2)[i] == NonPartialDtoDiagnostic((k1 + k2)[i])
    {
      if i >= |e1| {
        assert (k1 + k2)[i] == k2[i - |e1|];
      }
    }
  }

  predicate IsNonPartialDto(node: SyntaxNode) {
    IsDtoClass(node) && !node.isPartial
  }

  // ---------------------------------------------------------------- the generation path

  /** The generator's record of a class to generate: its syntax node, its
      symbol, the entity type and the ignored property names. */
  datatype DtoInfo = DtoInfo(node: SyntaxNode, dtoType: Decl, entityType: TypeRef, ignoredProperties: seq<string>)

  /** The entity type can be read from the attribute: a generic attribute's
      first type argument, or a `typeof` as first constructor argument. (Any
      other attribute makes the generator throw: indexing a missing
      constructor argument, casting a non-type constant, or querying the
      members of a null type.) */
  predicate EntityResolvable(a: Attr) {
    || (a.cls.Some? && |a.cls.value.typeArgs| > 0)
    || (|a.ctorArgs| > 0 && a.ctorArgs[0].TypeOf?)
  }

  function EntityTypeOf(a: Attr): TypeRef
    requires EntityResolvable(a)
  {
    if a.cls.Some? && |a.cls.value.typeArgs| > 0 then a.cls.value.typeArgs[0] else a.ctorArgs[0].typ
  }

  /** `IgnoredProperties` is declared `string[]`, so its elements are string
      constants or null: `v.Value?.ToString() ?? string.Empty` is a string's
      text, and the empty text for anything else. */
  function ValueText(c: Constant): string {
    if c.Str? then c.text else ""
  }

  /** The names read from an `IgnoredProperties` list: the element texts,
      empty ones dropped, in order. */
  function IgnoredNames(values: seq<Constant>): (r: seq<string>)
    ensures forall i :: 0 <= i < |r| ==> r[i] != "" && exists k :: 0 <= k < |values| && ValueText(values[k]) == r[i]
    ensures forall k :: 0 <= k < |values| && ValueText(values[k]) != "" ==> ValueText(values[k]) in r
  {
    if values == [] then []
    else
      var rest := IgnoredNames(values[1..]);
      assert forall k :: 0 <= k < |values[1..]| ==> values[1..][k] == values[k + 1];
      var head := ValueText(values[0]);
      (if head != "" then [head] else []) + rest
  }

  /** A named argument `IgnoredProperties = new[] { ... }` with at least one element. */
  predicate IsIgnoredPropertiesArgument(na: NamedArg) {
    na.key == IgnoredPropertiesKey && na.value.Array? && |na.value.elements| > 0
  }

  /** Where the loop over the named arguments stops: at an `IgnoredProperties`
      argument that is not an empty array. One with elements is read; any
      other value (null, in a `string[]` property) makes reading its
      `Values.Length` throw. */
  predicate StopsIgnoredLoop(na: NamedArg) {
    na.key == IgnoredPropertiesKey && !(na.value.Array? && |na.value.elements| == 0)
  }

  /** The ignored names can be read without throwing: the loop meets no
      `IgnoredProperties = null` before it reaches one with elements. */
  predicate IgnoredPropertiesReadable(a: Attr) {
    match FirstIndex(a.namedArgs, StopsIgnoredLoop)
    case None => true
    case Some(k) => a.namedArgs[k].value.Array?
  }

  /** `[Dto<User>(IgnoredProperties = null)]` is not readable: the loop
      reads the null array's length. An empty array is skipped instead. */
  lemma NullIgnoredPropertiesThrows(a: Attr, rest: seq<NamedArg>)
    ensures !IgnoredPropertiesReadable(Attr(a.cls, a.ctorArgs, [NamedArg(IgnoredPropertiesKey, Null)] + rest))
    ensures IgnoredPropertiesReadable(Attr(a.cls, a.ctorArgs, [NamedArg(IgnoredPropertiesKey, Array([]))] + rest))
        <==> IgnoredPropertiesReadable(Attr(a.cls, a.ctorArgs, rest))
  {
    var args := [NamedArg(IgnoredPropertiesKey, Array([]))] + rest;
    assert args[1..] == rest;
  }

  /** The ignored names: from the first `IgnoredProperties` argument with
      elements, else none. */
  function IgnoredPropertiesOf(a: Attr): seq<string> {
    match FirstIndex(a.namedArgs, IsIgnoredPropertiesArgument)
    case None => []
    case Some(k) => IgnoredNames(a.namedArgs[k].value.elements)
  }

  /** What `GetDtoClassInfo` returns for a candidate node: nothing without a
      `Dto` attribute on its symbol or without `partial`. */
  function DtoInfoOf(node: SyntaxNode): Option<DtoInfo>
    requires node.ClassSyntax?
    requires DtoAttributeOf(node).Some? && node.isPartial ==> EntityResolvable(DtoAttributeOf(node).value)
  {
    match DtoAttributeOf(node)
    case None => None
    case Some(dtoAttribute) =>
      if !node.isPartial then None
      else Some(DtoInfo(node, node.symbol.value, EntityTypeOf(dtoAttribute), IgnoredPropertiesOf(dtoAttribute)))
  }

  /** `GetDtoClassInfo` does not throw on the node: for a partial class with
      a `Dto` attribute, the entity type and the ignored names can be read. */
  predicate Resolvable(node: SyntaxNode)
    requires node.ClassSyntax?
  {
    DtoAttributeOf(node).Some? && node.isPartial ==>
      EntityResolvable(DtoAttributeOf(node).value) && IgnoredPropertiesReadable(DtoAttributeOf(node).value)
  }

  /** `GetDtoClassInfo`. */
  method GetDtoClassInfo(node: SyntaxNode) returns (info: Option<DtoInfo>)
    requires node.ClassSyntax? && Resolvable(node)
    ensures info == DtoInfoOf(node)
  {
    var dtoAttribute := DtoAttributeOf(node);
    if dtoAttribute.None? {
      return None;
    }
    if !node.isPartial {
      return None;
    }
    var attribute := dtoAttribute.value;
    var entityType;
    if |attribute.cls.value.typeArgs| > 0 {
      entityType := attribute.cls.value.typeArgs[0];
    } else {
      entityType := attribute.ctorArgs[0].typ;
    }
    var ignoredProperties := [];
    for i := 0 to |attribute.namedArgs|
      invariant forall j :: 0 <= j < i ==> !StopsIgnoredLoop(attribute.namedArgs[j])
    {
      var namedArg := attribute.namedArgs[i];
      if namedArg.key == IgnoredPropertiesKey {
        // `Value.Values.Length` is read here; `Resolvable` excludes the null value on which that throws
        assert FirstIndex(attribute.namedArgs, StopsIgnoredLoop).Some? ==> FirstIndex(attribute.namedArgs, StopsIgnoredLoop).value >= i;
        assert namedArg.value.Array?;
        if |namedArg.value.elements| > 0 {
          ignoredProperties := IgnoredNames(namedArg.value.elements);
          assert FirstIndex(attribute.namedArgs, IsIgnoredPropertiesArgument) == Some(i);
          break;
        }
      }
    }
    info := Some(DtoInfo(node, node.symbol.value, entityType, ignoredProperties));
  }

  /** Every candidate takes exactly one path: a non-partial one gets MA002 and
      no generation record, a partial one no diagnostic. */
  lemma ExactlyOnePath(node: SyntaxNode)
    requires IsDtoClass(node) && Resolvable(node)
    ensures IsNonPartialDto(node) <==> !node.isPartial
    ensures IsNonPartialDto(node) ==> DtoInfoOf(node).None?
    ensures DtoInfoOf(node).Some? ==> !IsNonPartialDto(node) && DtoInfoOf(node).value.node == node
  {
  }

  // ---------------------------------------------------------------- the generated class

  /** A named generic type with exactly one type argument: the only kind of
      type whose text the renderer rebuilds. */
  predicate IsRebuilt(t: TypeRef) {
    t.isNamed && t.isGeneric && |t.typeArgs| == 1
  }

  /** The type text of a generated property: a generic type with exactly one
      type argument is rebuilt from its definition's name in front of the
      first `<` and the rendering of the argument; any other type is its
      display text. */
  function GetPropertyType(t: TypeRef): (r: string)
    ensures !IsRebuilt(t) ==> r == t.display
    decreases t
  {
    if IsRebuilt(t) then
      TextBefore(t.definitionDisplay, '<') + "<" + GetPropertyType(t.typeArgs[0]) + ">"
    else t.display
  }

  /** A type whose display text is built the C# way from its definition's
      name and its type arguments, all the way down. */
  predicate DisplayBuiltFromParts(t: TypeRef)
    decreases t
  {
    IsRebuilt(t) ==>
      && t.display == TextBefore(t.definitionDisplay, '<') + "<" + t.typeArgs[0].display + ">"
      && DisplayBuiltFromParts(t.typeArgs[0])
  }

  /** Where display texts are built that way, the renderer gives the display
      text back: the rebuilding changes nothing for types such as
      `System.Collections.Generic.List<string>`. */
  lemma {:induction false} GetPropertyTypeIsDisplay(t: TypeRef)
    requires DisplayBuiltFromParts(t)
    ensures GetPropertyType(t) == t.display
    decreases t
  {
    if IsRebuilt(t) {
      GetPropertyTypeIsDisplay(t.typeArgs[0]);
    }
  }

  /** The number of generic levels the renderer rebuilds; the rendering ends
      with one `>` per level (`GetPropertyTypeEndsWithClosers`). */
  function GenericDepth(t: TypeRef): nat
    decreases t
  {
    if IsRebuilt(t) then 1 + GenericDepth(t.typeArgs[0]) else 0
  }

  /** The innermost type that the renderer copies by its display text. */
  function Innermost(t: TypeRef): TypeRef
    decreases t
  {
    if IsRebuilt(t) then Innermost(t.typeArgs[0]) else t
  }

  /** The rendering ends with one `>` per rebuilt level, right after the
      innermost type's display text. */
  lemma {:induction false} GetPropertyTypeEndsWithClosers(t: TypeRef)
    ensures EndsWith(GetPropertyType(t), Innermost(t).display + Repeat('>', GenericDepth(t)))
    decreases t
  {
    if IsRebuilt(t) {
      var inner := t.typeArgs[0];
      GetPropertyTypeEndsWithClosers(inner);
      var r, ri := GetPropertyType(t), GetPropertyType(inner);
      var tail := Innermost(inner).display + Repeat('>', GenericDepth(inner));
      assert Repeat('>', GenericDepth(t)) == Repeat('>', GenericDepth(inner)) + ">" by {
        RepeatSnoc('>', GenericDepth(inner));
      }
      var prefix := TextBefore(t.definitionDisplay, '<') + "<";
      assert r == prefix + ri + ">";
      assert ri[|ri| - |tail|..] == tail;
      assert r[|r| - |tail| - 1..] == ri[|ri| - |tail|..] + ">";
    } else {
      assert Repeat('>', 0) == "";
      assert GetPropertyType(t)[|GetPropertyType(t)| - |t.display|..] == GetPropertyType(t);
    }
  }

  function Repeat(c: char, n: nat): (r: string)
    ensures |r| == n
    ensures forall i :: 0 <= i < n ==> r[i] == c
  {
    if n == 0 then "" else [c] + Repeat(c, n - 1)
  }

  lemma {:induction false} RepeatSnoc(c: char, n: nat)
    ensures Repeat(c, n + 1) == Repeat(c, n) + [c]
  {
    if n > 0 {
      RepeatSnoc(c, n - 1);
      assert Repeat(c, n + 1) == [c] + Repeat(c, n);
    }
  }

  /** One generated auto-property. */
  datatype GeneratedProperty = GeneratedProperty(typeText: string, name: string)

  /** An entity property is generated when it is neither ignored nor declared by the DTO. */
  predicate Selected(p: PropertySymbol, ignored: seq<string>, existing: set<string>) {
    p.name !in ignored && p.name !in existing
  }

  /** The generated properties for the entity's properties, in order. */
  function GeneratedProperties(entityProperties: seq<PropertySymbol>, ignored: seq<string>, existing: set<string>): seq<GeneratedProperty>
    decreases |entityProperties|
  {
    if entityProperties == [] then []
    else
      var last := entityProperties[|entityProperties| - 1];
      GeneratedProperties(entityProperties[..|entityProperties| - 1], ignored, existing)
      + (if Selected(last, ignored, existing) then [GeneratedProperty(GetPropertyType(last.typ), last.name)] else [])
  }

  /** The names of the DTO's own properties. */
  function ExistingProperties(dtoType: Decl): set<string> {
    set p | p in PropertiesOf(dtoType.members) :: p.name
  }

  /** The loop of `GenerateDtoClassDefinition` over the entity's properties. */
  method GenerateDtoProperties(dtoType: Decl, entityProperties: seq<PropertySymbol>, ignoredProperties: seq<string>)
    returns (properties: seq<GeneratedProperty>)
    ensures properties == GeneratedProperties(entityProperties, ignoredProperties, ExistingProperties(dtoType))
  {
    var existingProperties := ExistingProperties(dtoType);
    properties := [];
    for i := 0 to |entityProperties|
      invariant properties == GeneratedProperties(entityProperties[..i], ignoredProperties, existingProperties)
    {
      assert entityProperties[..i + 1][..i] == entityProperties[..i];
      var member := entityProperties[i];
      if member.name in ignoredProperties || member.name in existingProperties {
        continue;
      }
      var propertyType := GetPropertyType(member.typ);
      properties := properties + [GeneratedProperty(propertyType, member.name)];
    }
    assert entityProperties[..|entityProperties|] == entityProperties;
  }

  /** The generated properties are the selected entity properties, in order,
      each rendered once with its type. */
  lemma {:induction false} GeneratedPropertiesInOrder(entityProperties: seq<PropertySymbol>, ignored: seq<string>, existing: set<string>)
    ensures var kept := Filter(entityProperties, (p: PropertySymbol) => Selected(p, ignored, existing));
            var props := GeneratedProperties(entityProperties, ignored, existing);
            && |props| == |kept|
            && forall i :: 0 <= i < |kept| ==> props[i] == GeneratedProperty(GetPropertyType(kept[i].typ), kept[i].name)
    decreases |entityProperties|
  {
    if entityProperties != [] {
      var init, last := entityProperties[..|entityProperties| - 1], entityProperties[|entityProperties| - 1];
      assert entityProperties == init + [last];
      GeneratedPropertiesInOrder(init, ignored, existing);
      FilterAppend(init, [last], (p: PropertySymbol) => Selected(p, ignored, existing));
    }
  }

  /** A name is generated exactly when some entity property has it and it is
      neither ignored nor declared by the DTO: generated names never collide
      with hand-written ones. */
  lemma GeneratedNames(entityProperties: seq<PropertySymbol>, ignored: seq<string>, existing: set<string>, name: string)
    ensures (exists i :: 0 <= i < |GeneratedProperties(entityProperties, ignored, existing)|
                         && GeneratedProperties(entityProperties, ignored, existing)[i].name == name)
        <==> (name !in ignored && name !in existing
              && exists k :: 0 <= k < |entityProperties| && entityProperties[k].name == name)
  {
    var sel := (p: PropertySymbol) => Selected(p, ignored, existing);
    var kept := Filter(entityProperties, sel);
    var props := GeneratedProperties(entityProperties, ignored, existing);
    GeneratedPropertiesInOrder(entityProperties, ignored, existing);
    if exists i :: 0 <= i < |props| && props[i].name == name {
      var i :| 0 <= i < |props| && props[i].name == name;
      assert kept[i] in entityProperties && sel(kept[i]);
      var k :| 0 <= k < |entityProperties| && entityProperties[k] == kept[i];
    }
    if name !in ignored && name !in existing && exists k :: 0 <= k < |entityProperties| && entityProperties[k].name == name {
      var k :| 0 <= k < |entityProperties| && entityProperties[k].name == name;
      assert entityProperties[k] in kept;
      var i :| 0 <= i < |kept| && kept[i] == entityProperties[k];
      assert props[i].name == name;
    }
  }

  /** Each generated property is named after some entity property. */
  lemma GeneratedNameOrigin(entityProperties: seq<PropertySymbol>, ignored: seq<string>, existing: set<string>, i: nat)
    requires i < |GeneratedProperties(entityProperties, ignored, existing)|
    ensures exists k :: 0 <= k < |entityProperties| && entityProperties[k].name == GeneratedProperties(entityProperties, ignored, existing)[i].name
  {
    var kept := Filter(entityProperties, (p: PropertySymbol) => Selected(p, ignored, existing));
    GeneratedPropertiesInOrder(entityProperties, ignored, existing);
    assert kept[i] in entityProperties;
    var k :| 0 <= k < |entityProperties| && entityProperties[k] == kept[i];
  }

  predicate NamesDistinct(props: seq<GeneratedProperty>) {
    forall i, j :: 0 <= i < j < |props| ==> props[i].name != props[j].name
  }

  /** An entity whose property names are distinct gives a class whose
      generated property names are distinct. */
  lemma {:induction false} GeneratedNamesDistinct(entityProperties: seq<PropertySymbol>, ignored: seq<string>, existing: set<string>)
    requires forall i, j :: 0 <= i < j < |entityProperties| ==> entityProperties[i].name != entityProperties[j].name
    ensures NamesDistinct(GeneratedProperties(entityProperties, ignored, existing))
    decreases |entityProperties|
  {
    if entityProperties != [] {
      var init, last := entityProperties[..|entityProperties| - 1], entityProperties[|entityProperties| - 1];
      assert forall k :: 0 <= k < |init| ==> init[k] == entityProperties[k];
      GeneratedNamesDistinct(init, ignored, existing);
      var props, initProps := GeneratedProperties(entityProperties, ignored, existing), GeneratedProperties(init, ignored, existing);
      assert NamesDistinct(initProps);
      var extra := if Selected(last, ignored, existing) then [GeneratedProperty(GetPropertyType(last.typ), last.name)] else [];
      assert props == initProps + extra;
      forall i, j | 0 <= i < j < |props|
        ensures props[i].name != props[j].name
      {
        assert props[i] == initProps[i];
        if j < |initProps| {
          assert props[j] == initProps[j];
          assert initProps[i].name != initProps[j].name;
        } else {
          assert props[j].name == last.name;
          GeneratedNameOrigin(init, ignored, existing, i);
          var k :| 0 <= k < |init| && init[k].name == initProps[i].name;
          assert entityProperties[k].name != entityProperties[|entityProperties| - 1].name;
        }
      }
    }
  }

  /** The generated half of a DTO class and its output key. */
  datatype DtoSource = DtoSource(hintName: string, namespace: string, className: string, properties: seq<GeneratedProperty>)

  function DtoHintName(dtoType: Decl): string {
    dtoType.name + ".g.cs"
  }

  /** What `GenerateDto` produces for a record, given the entity's properties. */
  function DtoSourceOf(info: DtoInfo, entityProperties: seq<PropertySymbol>): DtoSource {
    DtoSource(DtoHintName(info.dtoType), info.dtoType.namespace, info.dtoType.name,
              GeneratedProperties(entityProperties, info.ignoredProperties, ExistingProperties(info.dtoType)))
  }

  /** `GenerateDto` with `GenerateDtoClassDefinition`; the host supplies the
      members of the entity type. */
  method GenerateDto(info: DtoInfo, membersOf: TypeRef -> seq<Member>) returns (source: DtoSource)
    ensures source == DtoSourceOf(info, PropertiesOf(membersOf(info.entityType)))
  {
    var properties := GenerateDtoProperties(info.dtoType, PropertiesOf(membersOf(info.entityType)), info.ignoredProperties);
    source := DtoSource(DtoHintName(info.dtoType), info.dtoType.namespace, info.dtoType.name, properties);
  }

  // ---------------------------------------------------------------- the pipeline

  predicate AllResolvable(nodes: seq<SyntaxNode>) {
    forall i :: 0 <= i < |nodes| && IsDtoClass(nodes[i]) ==> Resolvable(nodes[i])
  }

  /** `info` is the record `GetDtoClassInfo` makes for its own node. */
  predicate IsRecordOfNode(info: DtoInfo) {
    && IsDtoClass(info.node)
    && Resolvable(info.node)
    && DtoInfoOf(info.node) == Some(info)
  }

  /** The record a node contributes: `GetDtoClassInfo` applied to a
      candidate (a candidate whose entity type cannot be read makes the
      generator throw; `RunDtoGenerator` rules that out). */
  function RecordOf(node: SyntaxNode): (r: Option<DtoInfo>)
    ensures r.Some? ==> r.value.node == node && IsRecordOfNode(r.value)
    ensures IsDtoClass(node) && Resolvable(node) ==> r == DtoInfoOf(node)
  {
    if IsDtoClass(node) && Resolvable(node) then DtoInfoOf(node) else None
  }

  /** The generation records of the candidates, in order, before de-duplication. */
  function DtoInfos(nodes: seq<SyntaxNode>): (r: seq<DtoInfo>)
    ensures forall i :: 0 <= i < |r| ==> r[i].node in nodes && IsRecordOfNode(r[i])
  {
    var r := SelectPresent(nodes, RecordOf);
    forall i | 0 <= i < |r| ensures r[i].node in nodes && IsRecordOfNode(r[i]) {
      var k :| 0 <= k < |nodes| && RecordOf(nodes[k]) == Some(r[i]);
    }
    r
  }

  /** The records `Distinct` keeps: the first of equal records, in order. */
  function DtoRecords(nodes: seq<SyntaxNode>): (r: seq<DtoInfo>)
    ensures NoDuplicates(r)
    ensures forall x :: x in r <==> x in DtoInfos(nodes)
  {
    Distinct(DtoInfos(nodes))
  }

  /** A generation record is only ever made for a partial class carrying a
      `Dto` attribute on its symbol, so no source is generated for a class
      that MA002 reports. */
  lemma RecordsArePartialCandidates(nodes: seq<SyntaxNode>, info: DtoInfo)
    requires info in DtoRecords(nodes)
    ensures info.node.ClassSyntax? && info.node.isPartial && IsDtoClass(info.node)
    ensures DtoAttributeOf(info.node).Some? && info.node.symbol == Some(info.dtoType)
    ensures info.node !in Filter(nodes, IsNonPartialDto)
  {
    var r := DtoInfos(nodes);
    assert info in r;
    var i :| 0 <= i < |r| && r[i] == info;
    assert r[i].node in nodes && IsRecordOfNode(r[i]);
  }

  /** Conversely, every candidate whose entity type can be read and for which
      `GetDtoClassInfo` makes a record has that record generated. */
  lemma CandidatesAreRecorded(nodes: seq<SyntaxNode>, k: nat)
    requires AllResolvable(nodes)
    requires k < |nodes| && IsDtoClass(nodes[k]) && DtoInfoOf(nodes[k]).Some?
    ensures DtoInfoOf(nodes[k]).value in DtoRecords(nodes)
  {
    assert RecordOf(nodes[k]) == DtoInfoOf(nodes[k]);
  }

  /** One source per record, in order. */
  method GenerateDtos(records: seq<DtoInfo>, membersOf: TypeRef -> seq<Member>) returns (sources: seq<DtoSource>)
    ensures |sources| == |records|
    ensures forall i :: 0 <= i < |records| ==> sources[i] == DtoSourceOf(records[i], PropertiesOf(membersOf(records[i].entityType)))
  {
    sources := [];
    for i := 0 to |records|
      invariant |sources| == i
      invariant forall k :: 0 <= k < i ==> sources[k] == DtoSourceOf(records[k], PropertiesOf(membersOf(records[k].entityType)))
    {
      var source := GenerateDto(records[i], membersOf);
      sources := sources + [source];
    }
  }

  /** `Initialize` for DTOs: the MA002 errors, and one source per record. */
  method RunDtoGenerator(nodes: seq<SyntaxNode>, membersOf: TypeRef -> seq<Member>)
    returns (sources: seq<DtoSource>, diagnostics: seq<Diagnostic>)
    requires AllResolvable(nodes)
    ensures diagnostics == NonPartialDiagnostics(nodes)
    ensures var records := DtoRecords(nodes);
            && |sources| == |records|
            && forall i :: 0 <= i < |records| ==> sources[i] == DtoSourceOf(records[i], PropertiesOf(membersOf(records[i].entityType)))
  {
    diagnostics := NonPartialDiagnostics(nodes);
    var records := DtoRecords(nodes);
    sources := GenerateDtos(records, membersOf);
  }
}
