/** `ControllerGenerator`: a class marked `[HttpFacade]` becomes a partial
    ASP.NET controller with one endpoint per method that carries an HTTP-verb
    attribute; each endpoint forwards to the same method of the injected
    service. */
module ControllerGenerator {
  import opened Strings
  import opened Collections
  import opened Symbols
  import opened GeneratorHelper
  import opened ControllerRoutes
  import opened ControllerAttributes

  const FacadeSyntaxName := "HttpFacade"
  const FacadeAttributeName := "HttpFacadeAttribute"
  const AsyncSuffix := "Async"
  const ControllerSuffix := "Controller"
  const GetAttributeName := "GetAttribute"
  const MethodNameKey := "MethodName"
  const ServiceKey := "Service"

  // ---------------------------------------------------------------- discovery

  /** `IsFacadeSyntaxNode`: a partial class declaration with an attribute
      written `HttpFacade` or `HttpFacadeAttribute`, possibly with type
      arguments. */
  function IsFacadeSyntaxNode(node: SyntaxNode): (r: bool)
    ensures r <==> && node.ClassSyntax?
                   && node.isPartial
                   && exists i, j :: 0 <= i < |node.attributeLists| && 0 <= j < |node.attributeLists[i]|
                                     && AttributeNameMatches(node.attributeLists[i][j], FacadeSyntaxName)
  {
    && node.ClassSyntax?
    && |node.attributeLists| > 0
    && AnyAttributeNamed(node.attributeLists, FacadeSyntaxName)
    && node.isPartial
  }

  /** A node is a candidate exactly when it is a partial class and the text
      in front of the first `<` of one of its attribute names is `HttpFacade`
      or `HttpFacadeAttribute`. */
  lemma FacadeCandidateByHead(node: SyntaxNode)
    ensures IsFacadeSyntaxNode(node)
        <==> && node.ClassSyntax?
             && node.isPartial
             && exists i, j :: 0 <= i < |node.attributeLists| && 0 <= j < |node.attributeLists[i]|
                               && IsAttributeHead(TextBefore(node.attributeLists[i][j], '<'), FacadeSyntaxName)
  {
    if node.ClassSyntax? {
      SomeAttributeNamedByHead(node.attributeLists, FacadeSyntaxName);
    }
  }

  /** The symbol-level test on an attribute: its class is `HttpFacadeAttribute`,
      or a generic class whose name starts with it. */
  predicate IsFacadeAttribute(a: Attr) {
    && a.cls.Some?
    && (|| a.cls.value.name == FacadeAttributeName
        || (StartsWith(a.cls.value.name, FacadeAttributeName) && |a.cls.value.typeArgs| > 0))
  }

  /** `GetFacadeTypeSymbol`: the declared type of a candidate, kept only when
      one of its attributes passes the symbol-level test. */
  function GetFacadeTypeSymbol(node: SyntaxNode): (r: Option<Decl>)
    requires node.ClassSyntax?
    ensures r.Some? <==> && node.symbol.Some?
                         && exists i :: 0 <= i < |node.symbol.value.attrs| && IsFacadeAttribute(node.symbol.value.attrs[i])
    ensures r.Some? ==> r == node.symbol
  {
    if node.symbol.Some? && FirstIndex(node.symbol.value.attrs, IsFacadeAttribute).Some? then node.symbol else None
  }

  /** The facade attribute `ProcessFacadeClass` works with: the first one. */
  function FacadeAttribute(d: Decl): (r: Option<Attr>)
    ensures r.None? <==> forall i :: 0 <= i < |d.attrs| ==> !IsFacadeAttribute(d.attrs[i])
    ensures r.Some? ==> exists k :: && 0 <= k < |d.attrs| && d.attrs[k] == r.value && IsFacadeAttribute(r.value)
                                    && forall i :: 0 <= i < k ==> !IsFacadeAttribute(d.attrs[i])
  {
    match FirstIndex(d.attrs, IsFacadeAttribute)
    case None => None
    case Some(k) => Some(d.attrs[k])
  }

  /** The facade classes the generator processes: the declared symbols of the
      candidate nodes that pass the symbol-level test, each once, in the order
      they are first found. */
  function FacadeClasses(nodes: seq<SyntaxNode>): (r: seq<Decl>)
    ensures NoDuplicates(r)
    ensures forall d :: d in r <==> exists i :: 0 <= i < |nodes| && IsFacadeSyntaxNode(nodes[i]) && GetFacadeTypeSymbol(nodes[i]) == Some(d)
  {
    Distinct(FacadeSymbols(nodes))
  }

  function FacadeSymbols(nodes: seq<SyntaxNode>): (r: seq<Decl>)
    ensures forall d :: d in r <==> exists i :: 0 <= i < |nodes| && IsFacadeSyntaxNode(nodes[i]) && GetFacadeTypeSymbol(nodes[i]) == Some(d)
  {
    if nodes == [] then []
    else
      var rest := FacadeSymbols(nodes[1..]);
      forall d: Decl, i | 1 <= i < |nodes| && IsFacadeSyntaxNode(nodes[i]) && GetFacadeTypeSymbol(nodes[i]) == Some(d)
        ensures d in rest
      {
        assert nodes[1..][i - 1] == nodes[i];
      }
      if IsFacadeSyntaxNode(nodes[0]) && GetFacadeTypeSymbol(nodes[0]).Some? then
        [GetFacadeTypeSymbol(nodes[0]).value] + rest
      else rest
  }

  // ---------------------------------------------------------------- naming

  /** The class name with one trailing `Controller` removed. */
  function ControllerName(className: string): string {
    TrimSuffix(className, ControllerSuffix)
  }

  function ControllerHintName(controllerName: string): string {
    controllerName + ControllerSuffix + ".g.cs"
  }

  /** The output of `UsersController` is `UsersController.g.cs`, and that of
      `Users` is also `UsersController.g.cs`: the key is the class name with
      exactly one `Controller` ensured at its end. */
  lemma ControllerHintNameOfClass(className: string)
    ensures EndsWith(className, ControllerSuffix) ==> ControllerHintName(ControllerName(className)) == className + ".g.cs"
    ensures !EndsWith(className, ControllerSuffix) ==> ControllerHintName(ControllerName(className)) == className + ControllerSuffix + ".g.cs"
    ensures EndsWith(ControllerHintName(ControllerName(className)), ControllerSuffix + ".g.cs")
  {
    var h := ControllerHintName(ControllerName(className));
    assert h == ControllerName(className) + (ControllerSuffix + ".g.cs");
    if EndsWith(className, ControllerSuffix) {
      assert h == (ControllerName(className) + ControllerSuffix) + ".g.cs";
    }
  }

  /** Only one suffix goes: `UsersControllerController` names the controller `UsersController`. */
  lemma ControllerNameStripsOneSuffix(className: string)
    requires EndsWith(className, ControllerSuffix)
    ensures |ControllerName(className)| == |className| - |ControllerSuffix|
    ensures StartsWith(className, ControllerName(className))
  {
    assert className[..|ControllerName(className)|] == ControllerName(className);
  }

  // ---------------------------------------------------------------- service type

  /** A named argument `Service = typeof(T)` whose type is a named type;
      `typeof(int[])` or `typeof(T)` for a type parameter does not count. */
  predicate IsServiceArgument(na: NamedArg) {
    na.key == ServiceKey && na.value.TypeOf? && na.value.typ.isNamed
  }

  /** The service the controller forwards to, by the first rule that applies:
      the declaration itself when it is an interface, the facade attribute's
      first type argument, the first `Service` named argument holding a
      named type, the first implemented interface. */
  function ServiceTypeOf(facadeClass: Decl, facadeAttribute: Attr): Option<TypeRef> {
    if facadeClass.isInterface then Some(facadeClass.self)
    else if facadeAttribute.cls.Some? && |facadeAttribute.cls.value.typeArgs| > 0 then
      Some(facadeAttribute.cls.value.typeArgs[0])
    else
      match FirstIndex(facadeAttribute.namedArgs, IsServiceArgument)
      case Some(k) => Some(facadeAttribute.namedArgs[k].value.typ)
      case None => if |facadeClass.interfaces| > 0 then Some(facadeClass.interfaces[0]) else None
  }

  /** No service type is found exactly when no rule applies. */
  lemma NoServiceTypeWhenNoRuleApplies(facadeClass: Decl, facadeAttribute: Attr)
    ensures ServiceTypeOf(facadeClass, facadeAttribute).None?
        <==> && !facadeClass.isInterface
             && (facadeAttribute.cls.None? || facadeAttribute.cls.value.typeArgs == [])
             && (forall k :: 0 <= k < |facadeAttribute.namedArgs| ==> !IsServiceArgument(facadeAttribute.namedArgs[k]))
             && facadeClass.interfaces == []
  {
  }

  /** `GetServiceType`. */
  method GetServiceType(facadeClass: Decl, facadeAttribute: Attr) returns (serviceType: Option<TypeRef>)
    ensures serviceType == ServiceTypeOf(facadeClass, facadeAttribute)
  {
    serviceType := None;
    if facadeClass.isInterface {
      serviceType := Some(facadeClass.self);
    } else if facadeAttribute.cls.Some? && |facadeAttribute.cls.value.typeArgs| > 0 {
      serviceType := Some(facadeAttribute.cls.value.typeArgs[0]);
    } else {
      var namedArguments := facadeAttribute.namedArgs;
      for i := 0 to |namedArguments|
        invariant serviceType.None?
        invariant forall j :: 0 <= j < i ==> !IsServiceArgument(namedArguments[j])
      {
        var namedArgument := namedArguments[i];
        if namedArgument.key == ServiceKey && namedArgument.value.TypeOf? && namedArgument.value.typ.isNamed {
          serviceType := Some(namedArgument.value.typ);
          assert FirstIndex(namedArguments, IsServiceArgument) == Some(i);
          break;
        }
      }
      if serviceType.None? && |facadeClass.interfaces| > 0 {
        serviceType := Some(facadeClass.interfaces[0]);
      }
    }
  }

  // ---------------------------------------------------------------- one endpoint

  /** The verb attribute of a method: its first attribute whose class derives
      from `HttpMethodAttributeBase`. */
  function VerbAttribute(m: MethodSymbol): (r: Option<Attr>)
    ensures r.None? <==> forall i :: 0 <= i < |m.attrs| ==> !IsHttpMethodAttribute(m.attrs[i])
    ensures r.Some? ==> exists k :: && 0 <= k < |m.attrs| && m.attrs[k] == r.value && IsHttpMethodAttribute(r.value)
                                    && forall i :: 0 <= i < k ==> !IsHttpMethodAttribute(m.attrs[i])
  {
    match FirstIndex(m.attrs, IsHttpMethodAttribute)
    case None => None
    case Some(k) => Some(m.attrs[k])
  }

  /** GET is recognised by the class name alone. */
  predicate IsGetVerb(verb: Attr)
    requires IsHttpMethodAttribute(verb)
  {
    verb.cls.value.name == GetAttributeName
  }

  /** The verb as it follows `Http` in the emitted attribute: the class name without `Attribute`. */
  function VerbText(verb: Attr): string
    requires IsHttpMethodAttribute(verb)
  {
    ReplaceAll(verb.cls.value.name, "Attribute", "")
  }

  function NameWithoutAsync(name: string): string {
    TrimSuffix(name, AsyncSuffix)
  }

  /** The route: the verb's first constructor argument when it is a string
      (even an empty one), else the method name without `Async`. */
  function RouteOf(m: MethodSymbol, verb: Attr): string {
    match GetConstructorArgument(verb, 0)
    case Some(customRoutePath) => customRoutePath
    case None => NameWithoutAsync(m.name)
  }

  lemma RouteChoice(m: MethodSymbol, verb: Attr)
    ensures |verb.ctorArgs| > 0 && verb.ctorArgs[0].Str? ==> RouteOf(m, verb) == verb.ctorArgs[0].text
    ensures !(|verb.ctorArgs| > 0 && verb.ctorArgs[0].Str?) ==>
              RouteOf(m, verb) == NameWithoutAsync(m.name)
              && (EndsWith(m.name, AsyncSuffix) ==> RouteOf(m, verb) + AsyncSuffix == m.name)
              && (!EndsWith(m.name, AsyncSuffix) ==> RouteOf(m, verb) == m.name)
  {
  }

  /** A named argument `MethodName = "..."` with a non-empty text. */
  predicate IsCustomMethodName(na: NamedArg) {
    na.key == MethodNameKey && na.value.Str? && na.value.text != ""
  }

  /** The name after the loop over the named arguments: the last non-empty
      `MethodName`, else the method's own name. */
  function LastMethodName(namedArgs: seq<NamedArg>, name: string): (r: string)
    ensures (forall k :: 0 <= k < |namedArgs| ==> !IsCustomMethodName(namedArgs[k])) ==> r == name
    ensures (exists k :: 0 <= k < |namedArgs| && IsCustomMethodName(namedArgs[k])) ==>
              exists k :: && 0 <= k < |namedArgs| && IsCustomMethodName(namedArgs[k]) && r == namedArgs[k].value.text
                          && forall j :: k < j < |namedArgs| ==> !IsCustomMethodName(namedArgs[j])
    decreases |namedArgs|
  {
    if namedArgs == [] then name
    else
      var last := namedArgs[|namedArgs| - 1];
      if IsCustomMethodName(last) then last.value.text
      else
        var init := namedArgs[..|namedArgs| - 1];
        var r := LastMethodName(init, name);
        assert forall k :: 0 <= k < |init| ==> init[k] == namedArgs[k];
        r
  }

  method CustomMethodName(namedArgs: seq<NamedArg>, name: string) returns (methodName: string)
    ensures methodName == LastMethodName(namedArgs, name)
  {
    methodName := name;
    for i := 0 to |namedArgs|
      invariant methodName == LastMethodName(namedArgs[..i], name)
    {
      assert namedArgs[..i + 1][..i] == namedArgs[..i];
      var namedArgument := namedArgs[i];
      if namedArgument.key == MethodNameKey && namedArgument.value.Str? && namedArgument.value.text != "" {
        methodName := namedArgument.value.text;
      }
    }
    assert namedArgs[..|namedArgs|] == namedArgs;
  }

  /** `method.Parameters.Select(p => p.Name).ToImmutableHashSet()`. */
  function ParameterNames(params: seq<Param>): set<string> {
    set i | 0 <= i < |params| :: params[i].name
  }

  datatype Binding = FromRoute | FromQuery | FromBody

  /** A parameter of the generated endpoint: `[binding] type name`. */
  datatype GeneratedParam = GeneratedParam(binding: Binding, typeText: string, name: string)

  /** An argument of the call to the service: a parameter by name, or
      `request.<field>`. */
  datatype CallArg = ByName(name: string) | RequestField(field: string)

  datatype RecordField = RecordField(typeText: string, name: string)

  /** The request record declared inside the controller. */
  datatype RequestRecord = RequestRecord(name: string, fields: seq<RecordField>)

  /** What the generator writes for one facade method. */
  datatype Endpoint = Endpoint(
    verb: string,
    route: string,
    request: Option<RequestRecord>,
    attributes: seq<string>,
    returnType: string,
    name: string,
    parameters: seq<GeneratedParam>,
    serviceMethod: string,
    arguments: seq<CallArg>)

  /** The parameters that a route parameter binds, in declared order. */
  function RouteBound(params: seq<Param>, routeParameters: set<string>): seq<Param> {
    Filter(params, (p: Param) => p.name in routeParameters)
  }

  /** The other parameters, in declared order. */
  function Unbound(params: seq<Param>, routeParameters: set<string>): seq<Param> {
    Filter(params, (p: Param) => p.name !in routeParameters)
  }

  function RequestName(m: MethodSymbol): string {
    NameWithoutAsync(m.name) + "Request"
  }

  /** The request record: one field per unbound parameter, with its type and
      its Pascal-cased name. */
  function RequestRecordOf(m: MethodSymbol, routeParameters: set<string>, pascal: string -> string): RequestRecord {
    RequestRecord(RequestName(m), MapSeq(Unbound(m.params, routeParameters), (p: Param) => RecordField(p.typ.display, pascal(p.name))))
  }

  /** One generated parameter of a GET endpoint. */
  function GetParameter(p: Param, routeParameters: set<string>): GeneratedParam {
    GeneratedParam(if p.name in routeParameters then FromRoute else FromQuery, p.typ.display, p.name)
  }

  /** The generated parameters of an endpoint that is not GET: the route-bound
      ones, then the request body when there is one. */
  function BodyParameters(m: MethodSymbol, routeParameters: set<string>): seq<GeneratedParam> {
    MapSeq(RouteBound(m.params, routeParameters), (p: Param) => GeneratedParam(FromRoute, p.typ.display, p.name))
    + (if |Unbound(m.params, routeParameters)| > 0 then [GeneratedParam(FromBody, RequestName(m), "request")] else [])
  }

  /** The service-call arguments of an endpoint that is not GET: route-bound
      parameters by name, the others through the request. */
  function BodyArguments(m: MethodSymbol, routeParameters: set<string>, pascal: string -> string): seq<CallArg> {
    MapSeq(m.params, (p: Param) => if p.name in routeParameters then ByName(p.name) else RequestField(pascal(p.name)))
  }

  /** The endpoint a facade method with the verb attribute `verb` gives: it
      has the verb's text and the route `RouteOf` chooses, is named after the
      last custom `MethodName` (`LastMethodName`) with `Facade` appended,
      calls the service method of the same name with one argument per
      parameter, repeats one line per copied attribute
      and declares a request record exactly when it is not GET and some
      parameter is not bound by the route. */
  function PlanEndpoint(m: MethodSymbol, verb: Attr, pascal: string -> string): (e: Endpoint)
    requires IsHttpMethodAttribute(verb) && SupportedAttrs(m.attrs)
    ensures e.serviceMethod == m.name && |e.arguments| == |m.params|
    ensures e.verb == VerbText(verb) && e.route == RouteOf(m, verb)
    ensures e.name == LastMethodName(verb.namedArgs, m.name) + "Facade" && EndsWith(e.name, "Facade")
    ensures e.attributes == CopiedAttributeLines(m.attrs) && |e.attributes| == |Filter(m.attrs, IsCopied)|
    ensures e.returnType == m.returnType.display
    ensures e.request.Some? ==> e.request.value == RequestRecordOf(m, RouteParameterSet(e.route), pascal)
    ensures e.request.Some? <==> !IsGetVerb(verb) && exists i :: 0 <= i < |m.params| && m.params[i].name !in RouteParameterSet(e.route)
  {
    var isGet := IsGetVerb(verb);
    var route := RouteOf(m, verb);
    var routeParameters := RouteParameterSet(route);
    var unbound := Unbound(m.params, routeParameters);
    assert |unbound| > 0 <==> exists i :: 0 <= i < |m.params| && m.params[i].name !in routeParameters by {
      if |unbound| > 0 {
        assert unbound[0] in m.params;
      }
    }
    var hasRequest := |unbound| > 0 && !isGet;
    CopiedAttributesInOrder(m.attrs);
    var name := LastMethodName(verb.namedArgs, m.name) + "Facade";
    assert name[|name| - |"Facade"|..] == "Facade";
    Endpoint(
      VerbText(verb),
      route,
      if hasRequest then Some(RequestRecordOf(m, routeParameters, pascal)) else None,
      CopiedAttributeLines(m.attrs),
      m.returnType.display,
      name,
      if isGet then MapSeq(m.params, (p: Param) => GetParameter(p, routeParameters)) else BodyParameters(m, routeParameters),
      m.name,
      if isGet then MapSeq(m.params, (p: Param) => ByName(p.name)) else BodyArguments(m, routeParameters, pascal))
  }

  /** The endpoint of a method, when it has a verb attribute. */
  function EndpointOf(m: MethodSymbol, pascal: string -> string): Option<Endpoint>
    requires SupportedAttrs(m.attrs)
  {
    match VerbAttribute(m)
    case None => None
    case Some(verb) => Some(PlanEndpoint(m, verb, pascal))
  }

  /** The route parameters of a method that no parameter of it binds. */
  function UnmatchedRouteParameters(m: MethodSymbol, verb: Attr): set<string> {
    RouteParameterSet(RouteOf(m, verb)) - ParameterNames(m.params)
  }

  /** Whether generating the method reports MA003. */
  predicate NeedsWarning(m: MethodSymbol) {
    VerbAttribute(m).Some? && UnmatchedRouteParameters(m, VerbAttribute(m).value) != {}
  }

  /** The loop over the parameters of a GET method. */
  method WireGetParameters(params: seq<Param>, routeParameters: set<string>)
    returns (methodParameters: seq<GeneratedParam>, serviceCallParameters: seq<CallArg>)
    ensures methodParameters == MapSeq(params, (p: Param) => GetParameter(p, routeParameters))
    ensures serviceCallParameters == MapSeq(params, (p: Param) => ByName(p.name))
  {
    methodParameters, serviceCallParameters := [], [];
    for i := 0 to |params|
      invariant |methodParameters| == |serviceCallParameters| == i
      invariant forall k :: 0 <= k < i ==> methodParameters[k] == GetParameter(params[k], routeParameters)
      invariant forall k :: 0 <= k < i ==> serviceCallParameters[k] == ByName(params[k].name)
    {
      var param := params[i];
      methodParameters := methodParameters +
        [if param.name in routeParameters then GeneratedParam(FromRoute, param.typ.display, param.name)
         else GeneratedParam(FromQuery, param.typ.display, param.name)];
      serviceCallParameters := serviceCallParameters + [ByName(param.name)];
    }
  }

  /** The body of the loop over the facade methods, for one method: no
      endpoint without a verb attribute; otherwise the planned endpoint,
      and MA003 exactly when a route parameter is unbound. */
  method GenerateEndpoint(m: MethodSymbol, pascal: string -> string)
    returns (endpoint: Option<Endpoint>, warning: Option<Diagnostic>)
    requires SupportedAttrs(m.attrs)
    ensures endpoint == EndpointOf(m, pascal)
    ensures warning.Some? <==> NeedsWarning(m)
    ensures warning.Some? ==> IsUnmatchedRouteWarning(warning.value, UnmatchedRouteParameters(m, VerbAttribute(m).value), RouteOf(m, VerbAttribute(m).value))
  {
    var httpMethodAttribute := VerbAttribute(m);
    if httpMethodAttribute.None? {
      return None, None;
    }
    var verb := httpMethodAttribute.value;
    var isGetMethod := verb.cls.value.name == GetAttributeName;
    var httpMethod := ReplaceAll(verb.cls.value.name, "Attribute", "");

    var methodName := m.name;
    var methodNameWithoutAsync := TrimSuffix(methodName, AsyncSuffix);
    var routePath := methodNameWithoutAsync;
    var customRoutePath := GetConstructorArgument(verb, 0);
    if customRoutePath.Some? {
      routePath := customRoutePath.value;
    }
    methodName := CustomMethodName(verb.namedArgs, methodName);

    var returnType := m.returnType.display;
    var requestName := methodNameWithoutAsync + "Request";
    var routeParameters := ExtractRouteParameters(routePath);
    var methodParameterNames := ParameterNames(m.params);
    warning := WarnIfHasUnmatchedRouteParam(routeParameters, methodParameterNames, routePath);

    var nonRouteParameters := Unbound(m.params, routeParameters);
    var request := None;
    if |nonRouteParameters| > 0 && !isGetMethod {
      request := Some(RequestRecord(requestName,
        MapSeq(nonRouteParameters, (p: Param) => RecordField(p.typ.display, pascal(p.name)))));
    }
    var attributes := CopyAttributes(m.attrs);

    var methodParameters, serviceCallParameters;
    if isGetMethod {
      methodParameters, serviceCallParameters := WireGetParameters(m.params, routeParameters);
    } else {
      methodParameters := BodyParameters(m, routeParameters);
      serviceCallParameters := BodyArguments(m, routeParameters, pascal);
    }
    endpoint := Some(Endpoint(httpMethod, routePath, request, attributes, returnType, methodName + "Facade",
                              methodParameters, m.name, serviceCallParameters));
  }

  // ---------------------------------------------------------------- properties of one endpoint

  /** GET: one parameter per source parameter, in order, bound from the route
      exactly when the route names it and from the query otherwise; the call
      passes every parameter by name, in order; there is no request record. */
  lemma GetWiring(m: MethodSymbol, verb: Attr, pascal: string -> string)
    requires IsHttpMethodAttribute(verb) && SupportedAttrs(m.attrs) && IsGetVerb(verb)
    ensures var e, rp := PlanEndpoint(m, verb, pascal), RouteParameterSet(RouteOf(m, verb));
            && e.request.None?
            && |e.parameters| == |m.params| == |e.arguments|
            && forall i :: 0 <= i < |m.params| ==>
                 && e.parameters[i].name == m.params[i].name
                 && e.parameters[i].typeText == m.params[i].typ.display
                 && (e.parameters[i].binding == FromRoute <==> m.params[i].name in rp)
                 && (e.parameters[i].binding != FromRoute ==> e.parameters[i].binding == FromQuery)
                 && e.arguments[i] == ByName(m.params[i].name)
  {
  }

  /** Not GET: the route-bound parameters in order, then one `[FromBody]`
      request parameter exactly when some parameter is unbound; the call has
      one argument per source parameter, in order, by name when the route
      binds it and through the request otherwise. */
  lemma BodyWiring(m: MethodSymbol, verb: Attr, pascal: string -> string)
    requires IsHttpMethodAttribute(verb) && SupportedAttrs(m.attrs) && !IsGetVerb(verb)
    ensures var e, rp := PlanEndpoint(m, verb, pascal), RouteParameterSet(RouteOf(m, verb));
            var bound := RouteBound(m.params, rp);
            && (e.request.Some? <==> exists i :: 0 <= i < |m.params| && m.params[i].name !in rp)
            && |e.parameters| == |bound| + (if e.request.Some? then 1 else 0)
            && (forall i :: 0 <= i < |bound| ==>
                  e.parameters[i] == GeneratedParam(FromRoute, bound[i].typ.display, bound[i].name))
            && (e.request.Some? ==> e.parameters[|bound|] == GeneratedParam(FromBody, RequestName(m), "request"))
            && |e.arguments| == |m.params|
            && forall i :: 0 <= i < |m.params| ==>
                 e.arguments[i] == if m.params[i].name in rp then ByName(m.params[i].name) else RequestField(pascal(m.params[i].name))
  {
    var rp := RouteParameterSet(RouteOf(m, verb));
    BodyWiringOf(m, rp, pascal);
  }

  lemma BodyWiringOf(m: MethodSymbol, rp: set<string>, pascal: string -> string)
    ensures var bound, ps := RouteBound(m.params, rp), BodyParameters(m, rp);
            var hasBody := |Unbound(m.params, rp)| > 0;
            && (hasBody <==> exists i :: 0 <= i < |m.params| && m.params[i].name !in rp)
            && |ps| == |bound| + (if hasBody then 1 else 0)
            && (forall i :: 0 <= i < |bound| ==> ps[i] == GeneratedParam(FromRoute, bound[i].typ.display, bound[i].name))
            && (hasBody ==> ps[|bound|] == GeneratedParam(FromBody, RequestName(m), "request"))
  {
    var unbound := Unbound(m.params, rp);
    if exists i :: 0 <= i < |m.params| && m.params[i].name !in rp {
      var i :| 0 <= i < |m.params| && m.params[i].name !in rp;
      assert m.params[i] in unbound;
    }
    if |unbound| > 0 {
      assert unbound[0] in m.params && unbound[0].name !in rp;
      var i :| 0 <= i < |m.params| && m.params[i] == unbound[0];
    }
  }

  /** An endpoint has no parameters exactly when the method has none, and then
      the call has no arguments either; so the two branches the generator
      takes for an empty and a non-empty signature write the same text. */
  lemma EmptySignatureMeansNoArguments(m: MethodSymbol, verb: Attr, pascal: string -> string)
    requires IsHttpMethodAttribute(verb) && SupportedAttrs(m.attrs)
    ensures var e := PlanEndpoint(m, verb, pascal);
            && (e.parameters == [] <==> m.params == [])
            && (e.arguments == [] <==> m.params == [])
            && EndpointLines(e) == UniformEndpointLines(e)
  {
    var e, rp := PlanEndpoint(m, verb, pascal), RouteParameterSet(RouteOf(m, verb));
    if !IsGetVerb(verb) && m.params != [] {
      if m.params[0].name in rp {
        assert m.params[0] in RouteBound(m.params, rp);
      } else {
        assert m.params[0] in Unbound(m.params, rp);
      }
    }
    UniformLinesWhenEmpty(e);
  }

  lemma UniformLinesWhenEmpty(e: Endpoint)
    requires e.parameters == [] <==> e.arguments == []
    ensures EndpointLines(e) == UniformEndpointLines(e)
  {
    if e.parameters == [] {
      assert MapSeq(e.parameters, ParameterText) == [] && MapSeq(e.arguments, ArgumentText) == [];
      var signature := "        public " + e.returnType + " " + e.name + "(";
      assert signature + Join(", ", MapSeq(e.parameters, ParameterText)) + ")" == signature + ")";
      assert "            => _service." + e.serviceMethod + "(" + Join(", ", MapSeq(e.arguments, ArgumentText)) + ");"
          == "            => _service." + e.serviceMethod + "();";
    }
  }

  /** The fields the call reads through `request.` are the request record's
      fields, in order: every parameter the route does not bind reaches the
      service through the record. */
  lemma RequestFieldsAreRecordFields(m: MethodSymbol, verb: Attr, pascal: string -> string)
    requires IsHttpMethodAttribute(verb) && SupportedAttrs(m.attrs)
    ensures var e := PlanEndpoint(m, verb, pascal);
            e.request.Some? ==> RequestFields(e.arguments) == FieldNames(e.request.value.fields)
  {
    var e, rp := PlanEndpoint(m, verb, pascal), RouteParameterSet(RouteOf(m, verb));
    if e.request.Some? {
      RequestFieldsOfParams(m.params, rp, pascal);
    }
  }

  /** The `request.` fields of a list of call arguments, in order. */
  function RequestFields(args: seq<CallArg>): seq<string> {
    if args == [] then []
    else (if args[0].RequestField? then [args[0].field] else []) + RequestFields(args[1..])
  }

  function FieldNames(fields: seq<RecordField>): seq<string> {
    if fields == [] then [] else [fields[0].name] + FieldNames(fields[1..])
  }

  lemma {:induction false} RequestFieldsOfParams(params: seq<Param>, rp: set<string>, pascal: string -> string)
    ensures RequestFields(MapSeq(params, (p: Param) => if p.name in rp then ByName(p.name) else RequestField(pascal(p.name))))
         == FieldNames(MapSeq(Unbound(params, rp), (p: Param) => RecordField(p.typ.display, pascal(p.name))))
    decreases |params|
  {
    if params != [] {
      var args := MapSeq(params, (p: Param) => if p.name in rp then ByName(p.name) else RequestField(pascal(p.name)));
      assert args[1..] == MapSeq(params[1..], (p: Param) => if p.name in rp then ByName(p.name) else RequestField(pascal(p.name)));
      RequestFieldsOfParams(params[1..], rp, pascal);
      var fields := MapSeq(Unbound(params, rp), (p: Param) => RecordField(p.typ.display, pascal(p.name)));
      var restFields := MapSeq(Unbound(params[1..], rp), (p: Param) => RecordField(p.typ.display, pascal(p.name)));
      if params[0].name in rp {
        assert Unbound(params, rp) == Unbound(params[1..], rp);
      } else {
        assert Unbound(params, rp) == [params[0]] + Unbound(params[1..], rp);
        assert fields[1..] == restFields;
      }
    }
  }

  // ---------------------------------------------------------------- the controller

  /** The generated partial controller: its output key, namespace, class
      name, service type text and endpoints. */
  datatype ControllerSource = ControllerSource(
    hintName: string,
    namespace: string,
    className: string,
    serviceType: string,
    endpoints: seq<Endpoint>)

  predicate SupportedMethods(methods: seq<MethodSymbol>) {
    forall i :: 0 <= i < |methods| ==> SupportedAttrs(methods[i].attrs)
  }

  /** The endpoints of the methods that have a verb attribute, in order. */
  function Endpoints(methods: seq<MethodSymbol>, pascal: string -> string): seq<Endpoint>
    requires SupportedMethods(methods)
    decreases |methods|
  {
    if methods == [] then []
    else
      var last := methods[|methods| - 1];
      var e := EndpointOf(last, pascal);
      Endpoints(methods[..|methods| - 1], pascal) + (if e.Some? then [e.value] else [])
  }

  predicate HasVerb(m: MethodSymbol) {
    VerbAttribute(m).Some?
  }

  /** `endpoints` are the endpoints of the methods `withVerb`, one for one. */
  predicate EndpointsOfMethods(endpoints: seq<Endpoint>, withVerb: seq<MethodSymbol>, pascal: string -> string) {
    && |endpoints| == |withVerb|
    && forall i :: 0 <= i < |withVerb| ==>
         SupportedAttrs(withVerb[i].attrs) && Some(endpoints[i]) == EndpointOf(withVerb[i], pascal)
  }

  /** Methods without a verb attribute are skipped; every other method gives
      one endpoint, in declaration order. */
  lemma {:induction false} EndpointsFollowVerbMethods(methods: seq<MethodSymbol>, pascal: string -> string)
    requires SupportedMethods(methods)
    ensures EndpointsOfMethods(Endpoints(methods, pascal), Filter(methods, HasVerb), pascal)
    decreases |methods|
  {
    if methods != [] {
      var init, last := methods[..|methods| - 1], methods[|methods| - 1];
      assert methods == init + [last];
      EndpointsFollowVerbMethods(init, pascal);
      FilterAppend(init, [last], HasVerb);
      var e := EndpointOf(last, pascal);
      EndpointsOfMethodsAppend(Endpoints(init, pascal), if e.Some? then [e.value] else [],
                               Filter(init, HasVerb), Filter([last], HasVerb), pascal);
    }
  }

  lemma EndpointsOfMethodsAppend(e1: seq<Endpoint>, e2: seq<Endpoint>, m1: seq<MethodSymbol>, m2: seq<MethodSymbol>, pascal: string -> string)
    requires EndpointsOfMethods(e1, m1, pascal) && EndpointsOfMethods(e2, m2, pascal)
    ensures EndpointsOfMethods(e1 + e2, m1 + m2, pascal)
  {
    forall i | 0 <= i < |m1 + m2|
      ensures SupportedAttrs((m1 + m2)[i].attrs) && Some((e1 + e2)[i]) == EndpointOf((m1 + m2)[i], pascal)
    {
      if i >= |m1| {
        assert (m1 + m2)[i] == m2[i - |m1|] && (e1 + e2)[i] == e2[i - |m1|];
      }
    }
  }

  /** The warnings of a controller: one per method that needs one, in order,
      each naming an unbound route parameter of its method. */
  predicate WarningsFor(warnings: seq<Diagnostic>, methods: seq<MethodSymbol>)
    decreases |methods|
  {
    if methods == [] then warnings == []
    else
      var last := methods[|methods| - 1];
      if NeedsWarning(last) then
        && |warnings| > 0
        && WarningsFor(warnings[..|warnings| - 1], methods[..|methods| - 1])
        && IsUnmatchedRouteWarning(warnings[|warnings| - 1], UnmatchedRouteParameters(last, VerbAttribute(last).value),
                                   RouteOf(last, VerbAttribute(last).value))
      else WarningsFor(warnings, methods[..|methods| - 1])
  }

  /** MA003 is reported at most once per method and exactly for the methods that need it. */
  lemma {:induction false} WarningCount(warnings: seq<Diagnostic>, methods: seq<MethodSymbol>)
    requires WarningsFor(warnings, methods)
    ensures |warnings| == |Filter(methods, NeedsWarning)|
    ensures forall i :: 0 <= i < |warnings| ==> warnings[i].id == "MA003" && warnings[i].severity == Warning
  {
    WarningsCounted(warnings, methods);
    WarningsAreMA003(warnings, methods);
  }

  lemma {:induction false} WarningsCounted(warnings: seq<Diagnostic>, methods: seq<MethodSymbol>)
    requires WarningsFor(warnings, methods)
    ensures |warnings| == |Filter(methods, NeedsWarning)|
    decreases |methods|
  {
    if methods != [] {
      var init, last := methods[..|methods| - 1], methods[|methods| - 1];
      assert methods == init + [last];
      FilterAppend(init, [last], NeedsWarning);
      if NeedsWarning(last) {
        WarningsCounted(warnings[..|warnings| - 1], init);
      } else {
        WarningsCounted(warnings, init);
      }
    }
  }

  lemma {:induction false} WarningsAreMA003(warnings: seq<Diagnostic>, methods: seq<MethodSymbol>)
    requires WarningsFor(warnings, methods)
    ensures forall i :: 0 <= i < |warnings| ==> warnings[i].id == "MA003" && warnings[i].severity == Warning
    decreases |methods|
  {
    if methods != [] {
      var init, last := methods[..|methods| - 1], methods[|methods| - 1];
      if NeedsWarning(last) {
        var prefix := warnings[..|warnings| - 1];
        WarningsAreMA003(prefix, init);
        assert forall i :: 0 <= i < |prefix| ==> warnings[i] == prefix[i];
      } else {
        WarningsAreMA003(warnings, init);
      }
    }
  }

  /** The source for a facade class whose service type is known: nothing when
      the class has no ordinary method. */
  function ControllerFor(controllerClass: Decl, serviceType: TypeRef, controllerName: string, pascal: string -> string): Option<ControllerSource>
    requires SupportedMethods(OrdinaryMethods(controllerClass.members))
  {
    var methods := OrdinaryMethods(controllerClass.members);
    if methods == [] then None
    else Some(ControllerSource(ControllerHintName(controllerName), controllerClass.namespace, controllerClass.name,
                               serviceType.display, Endpoints(methods, pascal)))
  }

  /** `GeneratePartialControllerImplementation`. */
  method GeneratePartialControllerImplementation(controllerClass: Decl, serviceType: TypeRef, controllerName: string, pascal: string -> string)
    returns (source: Option<ControllerSource>, warnings: seq<Diagnostic>)
    requires SupportedMethods(OrdinaryMethods(controllerClass.members))
    ensures source == ControllerFor(controllerClass, serviceType, controllerName, pascal)
    ensures WarningsFor(warnings, OrdinaryMethods(controllerClass.members))
  {
    var methods := OrdinaryMethods(controllerClass.members);
    if methods == [] {
      return None, [];
    }
    var endpoints;
    endpoints, warnings := GenerateEndpoints(methods, pascal);
    source := Some(ControllerSource(ControllerHintName(controllerName), controllerClass.namespace, controllerClass.name,
                                    serviceType.display, endpoints));
  }

  /** The loop of `GeneratePartialControllerImplementation`: the endpoints of
      the methods with a verb attribute and the warnings of those that need
      one, both in declaration order. */
  method GenerateEndpoints(methods: seq<MethodSymbol>, pascal: string -> string)
    returns (endpoints: seq<Endpoint>, warnings: seq<Diagnostic>)
    requires SupportedMethods(methods)
    ensures endpoints == Endpoints(methods, pascal)
    ensures WarningsFor(warnings, methods)
  {
    endpoints, warnings := [], [];
    for i := 0 to |methods|
      invariant endpoints == Endpoints(methods[..i], pascal)
      invariant WarningsFor(warnings, methods[..i])
    {
      assert methods[..i + 1][..i] == methods[..i];
      var endpoint, warning := GenerateEndpoint(methods[i], pascal);
      if warning.Some? {
        warnings := warnings + [warning.value];
      }
      if endpoint.Some? {
        endpoints := endpoints + [endpoint.value];
      }
    }
    assert methods[..|methods|] == methods;
  }

  predicate SupportedDecl(d: Decl) {
    SupportedMethods(OrdinaryMethods(d.members))
  }

  /** What `ProcessFacadeClass` produces for a facade class: nothing without a
      facade attribute or a service type, else the controller. */
  function FacadeOutput(controllerClass: Decl, pascal: string -> string): Option<ControllerSource>
    requires SupportedDecl(controllerClass)
  {
    match FacadeAttribute(controllerClass)
    case None => None
    case Some(facadeAttribute) =>
      match ServiceTypeOf(controllerClass, facadeAttribute)
      case None => None
      case Some(serviceType) => ControllerFor(controllerClass, serviceType, ControllerName(controllerClass.name), pascal)
  }

  /** `ProcessFacadeClass`. */
  method ProcessFacadeClass(controllerClass: Decl, pascal: string -> string)
    returns (source: Option<ControllerSource>, warnings: seq<Diagnostic>)
    requires SupportedDecl(controllerClass)
    ensures source == FacadeOutput(controllerClass, pascal)
    ensures source.Some? ==> WarningsFor(warnings, OrdinaryMethods(controllerClass.members))
    ensures source.None? ==> warnings == []
  {
    var facadeAttribute := FacadeAttribute(controllerClass);
    if facadeAttribute.None? {
      return None, [];
    }
    var controllerName := ControllerName(controllerClass.name);
    var serviceType := GetServiceType(controllerClass, facadeAttribute.value);
    if serviceType.None? {
      return None, [];
    }
    source, warnings := GeneratePartialControllerImplementation(controllerClass, serviceType.value, controllerName, pascal);
  }

  /** Every generated controller is keyed by its class name with `Controller`
      ensured at the end, and holds one endpoint per verb method. */
  lemma FacadeOutputShape(controllerClass: Decl, pascal: string -> string)
    requires SupportedDecl(controllerClass)
    ensures var out := FacadeOutput(controllerClass, pascal);
            out.Some? ==>
              && FacadeAttribute(controllerClass).Some?
              && ServiceTypeOf(controllerClass, FacadeAttribute(controllerClass).value).Some?
              && OrdinaryMethods(controllerClass.members) != []
              && EndsWith(out.value.hintName, ControllerSuffix + ".g.cs")
              && |out.value.endpoints| == |Filter(OrdinaryMethods(controllerClass.members), HasVerb)|
  {
    ControllerHintNameOfClass(controllerClass.name);
    if FacadeOutput(controllerClass, pascal).Some? {
      EndpointsFollowVerbMethods(OrdinaryMethods(controllerClass.members), pascal);
    }
  }

  // ---------------------------------------------------------------- endpoint text

  function BindingText(b: Binding): string {
    match b
    case FromRoute => "[FromRoute]"
    case FromQuery => "[FromQuery]"
    case FromBody => "[FromBody]"
  }

  function ParameterText(p: GeneratedParam): string {
    BindingText(p.binding) + " " + p.typeText + " " + p.name
  }

  function ArgumentText(a: CallArg): string {
    match a
    case ByName(name) => name
    case RequestField(field) => "request." + field
  }

  function RecordFieldText(f: RecordField): string {
    f.typeText + " " + f.name
  }

  /** The lines of the request record (when there is one) and of the endpoint. */
  function RequestLines(e: Endpoint): seq<string> {
    match e.request
    case None => []
    case Some(r) => ["        public record " + r.name + "(" + Join(", ", MapSeq(r.fields, RecordFieldText)) + ");", ""]
  }

  function HeadLines(e: Endpoint): seq<string> {
    RequestLines(e)
    + ["        [Http" + e.verb + "(\"" + e.route + "\")]"]
    + MapSeq(e.attributes, (line: string) => "        " + line)
  }

  /** The endpoint's text as the generator writes it, with its separate
      branch for an empty signature. */
  function EndpointLines(e: Endpoint): seq<string> {
    var signature := "        public " + e.returnType + " " + e.name + "(";
    HeadLines(e)
    + (if |e.parameters| > 0 then
         [signature + Join(", ", MapSeq(e.parameters, ParameterText)) + ")",
          "            => _service." + e.serviceMethod + "(" + Join(", ", MapSeq(e.arguments, ArgumentText)) + ");"]
       else
         [signature + ")",
          "            => _service." + e.serviceMethod + "();"])
    + [""]
  }

  /** The same text written by the non-empty branch alone. */
  function UniformEndpointLines(e: Endpoint): seq<string> {
    HeadLines(e)
    + ["        public " + e.returnType + " " + e.name + "(" + Join(", ", MapSeq(e.parameters, ParameterText)) + ")",
       "            => _service." + e.serviceMethod + "(" + Join(", ", MapSeq(e.arguments, ArgumentText)) + ");"]
    + [""]
  }
}
