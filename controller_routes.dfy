/** Route templates of generated endpoints: which path segments name route
    parameters (`ExtractRouteParameters`), and the MA003 warning for a route
    parameter that no method parameter binds (`WarnIfHasUnmatchedRouteParam`). */
module ControllerRoutes {
  import opened Strings
  import opened Collections
  import opened Symbols

  /** A segment names a route parameter when it starts with `{` and ends with `}`. */
  predicate IsParameterSegment(segment: string)
    ensures IsParameterSegment(segment) ==> |segment| >= 2
  {
    assert |segment| == 1 ==> segment[..1] == segment[|segment| - 1..] == segment;
    StartsWith(segment, "{") && EndsWith(segment, "}")
  }

  /** The text between the braces, cut at the first `:` when that colon is
      not its first character (`{id:int}` names `id`, `{:x}` names `:x`). */
  function ParameterName(segment: string): (name: string)
    requires IsParameterSegment(segment)
    ensures var inner := segment[1..|segment| - 1];
            && StartsWith(inner, name)
            && (|name| < |inner| ==> inner[|name|] == ':')
            && (':' in name ==> inner != [] && inner[0] == ':')
            && (inner != [] && inner[0] == ':' ==> name == inner)
  {
    var inner := segment[1..|segment| - 1];
    var colonIndex := IndexOf(inner, ':');
    if colonIndex > 0 then inner[..colonIndex] else inner
  }

  /** The route parameters of a template: the names of its parameter
      segments, among the non-empty `/`-separated segments. */
  function RouteParameterSet(routePath: string): set<string> {
    var segments := Split(routePath, '/');
    set k | 0 <= k < |segments| && IsParameterSegment(segments[k]) :: ParameterName(segments[k])
  }

  /** `ExtractRouteParameters`. */
  method ExtractRouteParameters(routePath: string) returns (parameters: set<string>)
    ensures parameters == RouteParameterSet(routePath)
  {
    parameters := {};
    if routePath == "" {
      return;
    }
    var segments := Split(routePath, '/');
    for i := 0 to |segments|
      invariant parameters == set k | 0 <= k < i && IsParameterSegment(segments[k]) :: ParameterName(segments[k])
    {
      var segment := segments[i];
      if IsParameterSegment(segment) {
        var paramName := segment[1..|segment| - 1];
        var colonIndex := IndexOf(paramName, ':');
        if colonIndex > 0 {
          paramName := paramName[..colonIndex];
        }
        assert paramName == ParameterName(segment);
        parameters := parameters + {paramName};
      }
    }
  }

  /** An empty template has no route parameters. */
  lemma EmptyRouteHasNoParameters()
    ensures RouteParameterSet("") == {}
  {
  }

  /** Exactly the parameter segments of a template name its route parameters:
      for a template written as non-empty segments joined by `/`, the route
      parameters are the names of those segments that are wrapped in braces. */
  lemma RouteParametersOfSegments(segments: seq<string>)
    requires forall i :: 0 <= i < |segments| ==> segments[i] != "" && '/' !in segments[i]
    ensures RouteParameterSet(Join("/", segments))
         == set k | 0 <= k < |segments| && IsParameterSegment(segments[k]) :: ParameterName(segments[k])
  {
    SplitJoin(segments, '/');
  }

  /** A route parameter name never holds a `/`, and holds a `:` only when it
      starts with one (the constraint after a later colon is cut off). */
  lemma RouteParameterNamesAreClean(routePath: string, name: string)
    requires name in RouteParameterSet(routePath)
    ensures '/' !in name
    ensures ':' in name ==> name[0] == ':'
  {
    var segments := Split(routePath, '/');
    var k :| 0 <= k < |segments| && IsParameterSegment(segments[k]) && ParameterName(segments[k]) == name;
    var segment := segments[k];
    var inner := segment[1..|segment| - 1];
    assert forall c :: c in inner ==> c in segment;
    assert forall c :: c in name ==> c in inner by {
      assert name == inner[..|name|];
    }
    if ':' in name {
      assert name == inner;
    }
  }

  predicate IsUnmatchedRouteWarning(d: Diagnostic, unmatched: set<string>, routePath: string) {
    && d.id == "MA003"
    && d.severity == Warning
    && |d.args| == 2 && d.args[0] in unmatched && d.args[1] == routePath
    && d.message == UnmatchedRouteMessage(d.args[0], routePath)
  }

  function UnmatchedRouteMessage(name: string, routePath: string): string {
    "Route parameter '" + name + "' in route '" + routePath + "' not found in method signature"
  }

  /** `WarnIfHasUnmatchedRouteParam`: one warning when some route parameter
      is not a method parameter's name; it cites one such parameter (which one
      the hash set's order decides) and the route. */
  method WarnIfHasUnmatchedRouteParam(routeParameters: set<string>, methodParameterNames: set<string>, routePath: string)
    returns (warning: Option<Diagnostic>)
    ensures warning.Some? <==> !(routeParameters <= methodParameterNames)
    ensures warning.Some? ==> IsUnmatchedRouteWarning(warning.value, routeParameters - methodParameterNames, routePath)
  {
    var unmatchedParams := routeParameters - methodParameterNames;
    if unmatchedParams != {} {
      var first :| first in unmatchedParams;
      warning := Some(Diagnostic("MA003", Warning, [first, routePath], UnmatchedRouteMessage(first, routePath)));
    } else {
      assert routeParameters <= methodParameterNames by {
        forall x | x in routeParameters ensures x in methodParameterNames {
          assert x !in unmatchedParams;
        }
      }
      warning := None;
    }
  }
}
