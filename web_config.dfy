/** config/WebConfig.java: which requests need an authenticated caller, and
    which cross-origin requests the browser may make. The security chain's
    `authorizeHttpRequests` rules are an ordered list: the first rule with a
    pattern matching the request path decides, and the last rule matches
    every request. */
module WebSecurity {

  /** A request-matcher pattern: a base path with the `**` suffix (the base
      itself or anything below it), an exact path, or `anyRequest()`. */
  datatype Pattern = Under(base: string) | Exactly(path: string) | AnyRequest

  datatype Access = PermitAll | Authenticated

  datatype Rule = Rule(patterns: seq<Pattern>, access: Access)

  predicate IsPrefix(p: string, s: string) {
    |p| <= |s| && s[..|p|] == p
  }

  predicate PatternMatches(pattern: Pattern, path: string) {
    match pattern
    case Under(base) => path == base || IsPrefix(base + "/", path)
    case Exactly(p) => path == p
    case AnyRequest => true
  }

  predicate RuleMatches(rule: Rule, path: string) {
    exists i | 0 <= i < |rule.patterns| :: PatternMatches(rule.patterns[i], path)
  }

  /** The rules of `securityFilterChain`, in declaration order. */
  const Rules: seq<Rule> := [
    Rule([Under("/api/public")], PermitAll),
    Rule([Under("/api/auth")], PermitAll),
    Rule([Under("/actuator")], PermitAll),
    Rule([Under("/v3/api-docs"), Under("/swagger-ui"), Exactly("/swagger-ui.html")], PermitAll),
    Rule([Under("/h2-console")], PermitAll),
    Rule([AnyRequest], Authenticated)
  ]

  /** The position of the first rule that matches, if any does. */
  function FirstMatch(rules: seq<Rule>, path: string): (i: int)
    ensures -1 <= i < |rules|
    ensures i >= 0 ==> RuleMatches(rules[i], path)
    ensures forall j | 0 <= j < |rules| && (i < 0 || j < i) :: !RuleMatches(rules[j], path)
  {
    if rules == [] then -1
    else if RuleMatches(rules[0], path) then 0
    else
      var i := FirstMatch(rules[1..], path);
      if i < 0 then -1 else i + 1
  }

  /** The access the chain grants a request path. */
  function Decide(path: string): Access {
    var i := FirstMatch(Rules, path);
    if i < 0 then Authenticated else Rules[i].access
  }

  /** The public patterns of the chain. */
  predicate Public(path: string) {
    || PatternMatches(Under("/api/public"), path)
    || PatternMatches(Under("/api/auth"), path)
    || PatternMatches(Under("/actuator"), path)
    || PatternMatches(Under("/v3/api-docs"), path)
    || PatternMatches(Under("/swagger-ui"), path)
    || PatternMatches(Exactly("/swagger-ui.html"), path)
    || PatternMatches(Under("/h2-console"), path)
  }

  /** The catch-all comes last, so every path is decided by some rule; a
      path is let through exactly when one of the public patterns matches
      it, and needs authentication otherwise. */
  lemma DecideByPatterns(path: string)
    ensures FirstMatch(Rules, path) >= 0
    ensures Decide(path) == PermitAll <==> Public(path)
  {
    var i := FirstMatch(Rules, path);
    assert RuleMatches(Rules[5], path) by {
      assert PatternMatches(Rules[5].patterns[0], path);
    }
    if Public(path) {
      if PatternMatches(Under("/api/public"), path) {
        assert RuleMatches(Rules[0], path) by { assert Rules[0].patterns[0] == Under("/api/public"); }
      } else if PatternMatches(Under("/api/auth"), path) {
        assert RuleMatches(Rules[1], path) by { assert Rules[1].patterns[0] == Under("/api/auth"); }
      } else if PatternMatches(Under("/actuator"), path) {
        assert RuleMatches(Rules[2], path) by { assert Rules[2].patterns[0] == Under("/actuator"); }
      } else if PatternMatches(Under("/v3/api-docs"), path) {
        assert RuleMatches(Rules[3], path) by { assert Rules[3].patterns[0] == Under("/v3/api-docs"); }
      } else if PatternMatches(Under("/swagger-ui"), path) {
        assert RuleMatches(Rules[3], path) by { assert Rules[3].patterns[1] == Under("/swagger-ui"); }
      } else if PatternMatches(Exactly("/swagger-ui.html"), path) {
        assert RuleMatches(Rules[3], path) by { assert Rules[3].patterns[2] == Exactly("/swagger-ui.html"); }
      } else {
        assert RuleMatches(Rules[4], path) by { assert Rules[4].patterns[0] == Under("/h2-console"); }
      }
    }
    if 0 <= i < 5 {
      var k :| 0 <= k < |Rules[i].patterns| && PatternMatches(Rules[i].patterns[k], path);
      assert Public(path);
    }
  }

  /** The order and item endpoints need an authenticated caller. */
  lemma OrderAndItemPathsProtected(rest: string)
    ensures Decide("/api/orders" + rest) == Authenticated
    ensures Decide("/api/items" + rest) == Authenticated
  {
    DecideByPatterns("/api/orders" + rest);
    DecideByPatterns("/api/items" + rest);
    NotUnder("/api/orders" + rest, "/api/orders");
    NotUnder("/api/items" + rest, "/api/items");
  }

  /** A path starting with an order or item root lies under no public
      pattern: they all differ from it within its first characters. */
  lemma NotUnder(path: string, root: string)
    requires root == "/api/orders" || root == "/api/items"
    requires IsPrefix(root, path)
    ensures !Public(path)
  {
    assert path[..|root|] == root;
    assert path[1] == 'a' && path[2] == 'p' && (path[5] == 'o' || path[5] == 'i');
    DiffersWithin(path, "/api/public", 5);
    DiffersWithin(path, "/api/auth", 5);
    DiffersWithin(path, "/actuator", 2);
    DiffersWithin(path, "/v3/api-docs", 1);
    DiffersWithin(path, "/swagger-ui", 1);
    DiffersWithin(path, "/h2-console", 1);
    assert path != "/swagger-ui.html" by { assert "/swagger-ui.html"[1] == 's'; }
  }

  /** A path that differs from a base at one of the base's positions is not
      under it. */
  lemma DiffersWithin(path: string, base: string, i: nat)
    requires i < |base| && i < |path| && path[i] != base[i]
    ensures !PatternMatches(Under(base), path)
  {
    assert (base + "/")[i] == base[i];
  }

  /** The login and refresh endpoints fall under the public auth rule. */
  lemma AuthEndpointsPublic()
    ensures Decide("/api/auth/login") == PermitAll
    ensures Decide("/api/auth/refreshToken") == PermitAll
  {
    AuthChild("/api/auth/login");
    AuthChild("/api/auth/refreshToken");
  }

  /** Every path below the auth root is let through. */
  lemma AuthChild(path: string)
    requires IsPrefix("/api/auth/", path)
    ensures Decide(path) == PermitAll
  {
    assert "/api/auth" + "/" == "/api/auth/";
    assert PatternMatches(Under("/api/auth"), path);
    DecideByPatterns(path);
  }

  // ---------------------------------------------------------------------
  // `corsConfigurationSource`: one configuration, registered for "/**".
  // ---------------------------------------------------------------------

  const AllowedOrigins: seq<string> := ["http://localhost:4200"]
  const AllowedMethods: seq<string> := ["GET", "POST", "PUT", "DELETE", "OPTIONS"]
  const AllowedHeaders: seq<string> := ["*"]
  const AllowCredentials: bool := true
  const CorsPattern: Pattern := Under("")

  /** A cross-origin request the configuration accepts: a path under the
      registered pattern, a listed origin and a listed method. */
  predicate CorsAllows(origin: string, verb: string, path: string) {
    PatternMatches(CorsPattern, path) && origin in AllowedOrigins && verb in AllowedMethods
  }

  /** Every absolute path is covered, and exactly the one origin and the
      five methods are accepted, with credentials. */
  lemma CorsPolicy(origin: string, verb: string, path: string)
    requires |path| > 0 && path[0] == '/'
    ensures CorsAllows(origin, verb, path) <==>
      origin == "http://localhost:4200" && verb in {"GET", "POST", "PUT", "DELETE", "OPTIONS"}
    ensures AllowCredentials && AllowedHeaders == ["*"]
  {
    assert IsPrefix("" + "/", path);
  }
}
