/** `CoreSecurityConfig`: the ordered request-authorization rules, where the first rule whose
    path pattern matches decides and an unmatched path needs an authenticated principal, and
    the list of allowed CORS origins read from configuration. */
module SecurityConfig {
  import opened Wrappers
  import opened Strings
  import opened AuthEntity

  /** A request-matcher pattern: an exact path, or a subtree pattern (the prefix followed by a double star), which matches the prefix
      itself and every path below it, segment-wise. */
  datatype Pattern = Exact(path: string) | Subtree(prefix: string)

  predicate Matches(p: Pattern, path: string)
  {
    match p
    case Exact(e) => path == e
    case Subtree(prefix) => path == prefix || StartsWith(path, prefix + "/")
  }

  /** The three kinds of decision the rule list uses. */
  datatype Access = PermitAll | Authenticated | HasRole(role: string)

  datatype Rule = Rule(pattern: Pattern, access: Access)

  /** The `authorizeHttpRequests` rules, in order. */
  const Rules: seq<Rule> := seq(23, RuleAt)

  /** The rule at each position of the list; the last one is the actuator rule. */
  function RuleAt(j: int): Rule
  {
    match j
    case 0 => Rule(Subtree("/api/v1/auth"), PermitAll)
    case 1 => Rule(Subtree("/api/v1/public"), PermitAll)
    case 2 => Rule(Subtree("/api/v1/jwt"), PermitAll)
    case 3 => Rule(Subtree("/v3/api-docs"), PermitAll)
    case 4 => Rule(Subtree("/swagger-ui"), PermitAll)
    case 5 => Rule(Exact("/swagger-ui.html"), PermitAll)
    case 6 => Rule(Exact("/actuator/health"), PermitAll)
    case 7 => Rule(Exact("/actuator/health/liveness"), PermitAll)
    case 8 => Rule(Exact("/actuator/health/readiness"), PermitAll)
    case 9 => Rule(Exact("/actuator/prometheus"), PermitAll)
    case 10 => Rule(Subtree("/api/v1/medicines/search"), PermitAll)
    case 11 => Rule(Subtree("/api/v1/medicines"), PermitAll)
    case 12 => Rule(Exact("/api/v1/medicines/count"), PermitAll)
    case 13 => Rule(Subtree("/api/v1/pharmacies/search"), PermitAll)
    case 14 => Rule(Subtree("/api/v1/pharmacies/nearby"), PermitAll)
    case 15 => Rule(Subtree("/api/v1/pharmacies/location"), PermitAll)
    case 16 => Rule(Exact("/api/v1/pharmacies/24hours"), PermitAll)
    case 17 => Rule(Exact("/api/v1/pharmacies/delivery"), PermitAll)
    case 18 => Rule(Exact("/api/v1/pharmacies/drive-through"), PermitAll)
    case 19 => Rule(Subtree("/api/v1/ai"), Authenticated)
    case 20 => Rule(Exact("/api/v1/medicines"), HasRole("ADMIN"))
    case 21 => Rule(Exact("/api/v1/pharmacies"), HasRole("ADMIN"))
    case _ => Rule(Subtree("/actuator"), HasRole("ADMIN"))
  }

  /** The decision for a path: the access of the first matching rule, else `anyRequest()`. */
  function Decide(rules: seq<Rule>, path: string): (a: Access)
    ensures (forall j :: 0 <= j < |rules| ==> !Matches(rules[j].pattern, path)) ==> a == Authenticated
    ensures a == Authenticated || exists j :: 0 <= j < |rules| && Matches(rules[j].pattern, path) && a == rules[j].access
  {
    if |rules| == 0 then Authenticated
    else if Matches(rules[0].pattern, path) then rules[0].access
    else Decide(rules[1..], path)
  }

  /** `Decide` is first-match: the rule at the least matching index decides, and with no
      match the path needs authentication. */
  lemma {:induction false} DecideIsFirstMatch(rules: seq<Rule>, path: string, i: nat)
    requires i < |rules| && Matches(rules[i].pattern, path)
    requires forall j :: 0 <= j < i ==> !Matches(rules[j].pattern, path)
    ensures Decide(rules, path) == rules[i].access
  {
    if i > 0 {
      DecideIsFirstMatch(rules[1..], path, i - 1);
    }
  }

  lemma {:induction false} DecideNoMatch(rules: seq<Rule>, path: string)
    requires forall j :: 0 <= j < |rules| ==> !Matches(rules[j].pattern, path)
    ensures Decide(rules, path) == Authenticated
  {
    if |rules| > 0 {
      DecideNoMatch(rules[1..], path);
    }
  }

  /** Whether a principal with the given authorities (none when anonymous) may proceed:
      `hasRole(r)` asks for the authority `ROLE_` + r. */
  predicate Permits(a: Access, authorities: Option<set<string>>)
    ensures authorities.None? ==> (Permits(a, authorities) <==> a == PermitAll)
    ensures a == PermitAll ==> Permits(a, authorities)
  {
    match a
    case PermitAll => true
    case Authenticated => authorities.Some?
    case HasRole(r) => authorities.Some? && "ROLE_" + r in authorities.value
  }

  lemma StartsWithAppend(prefix: string, rest: string)
    ensures StartsWith(prefix + rest, prefix)
  {
    assert (prefix + rest)[..|prefix|] == prefix;
  }

  /** The text a pattern is written with. */
  function Key(p: Pattern): string
  {
    match p
    case Exact(e) => e
    case Subtree(prefix) => prefix
  }

  /** A pattern whose text differs from the path at some position does not match it. */
  lemma MissAt(p: Pattern, path: string, k: nat)
    requires k < |path| && k < |Key(p)| && Key(p)[k] != path[k]
    ensures !Matches(p, path)
  {
    if p.Subtree? {
      assert (p.prefix + "/")[k] == p.prefix[k];
    }
  }

  /** Neither does a pattern whose text is longer than the path. */
  lemma MissLonger(p: Pattern, path: string)
    requires |Key(p)| > |path|
    ensures !Matches(p, path)
  {
  }

  /** Everything under the authentication, public and token APIs is open to anyone. */
  lemma OpenApis(rest: string)
    ensures Decide(Rules, "/api/v1/auth/" + rest) == PermitAll
    ensures Decide(Rules, "/api/v1/public/" + rest) == PermitAll
    ensures Decide(Rules, "/api/v1/jwt/" + rest) == PermitAll
  {
    StartsWithAppend("/api/v1/auth/", rest);
    StartsWithAppend("/api/v1/public/", rest);
    var jwt := "/api/v1/jwt/" + rest;
    StartsWithAppend("/api/v1/jwt/", rest);
    assert jwt[8] == 'j';
    MissAt(Rules[0].pattern, jwt, 8);
    MissAt(Rules[1].pattern, jwt, 8);
    DecideIsFirstMatch(Rules, jwt, 2);
  }

  /** The medicines catalogue, the bare path and everything below it, is open to anyone. */
  lemma MedicinesOpen(rest: string)
    ensures Decide(Rules, "/api/v1/medicines") == PermitAll
    ensures Decide(Rules, "/api/v1/medicines/" + rest) == PermitAll
  {
    MedicinesOpenAt("/api/v1/medicines");
    StartsWithAppend("/api/v1/medicines/", rest);
    MedicinesOpenAt("/api/v1/medicines/" + rest);
  }

  lemma MedicinesOpenAt(path: string)
    requires Matches(Subtree("/api/v1/medicines"), path)
    ensures Decide(Rules, path) == PermitAll
  {
    PrefixChars(path, "/api/v1/medicines");
    MissFirstTen(path, 'm');
    if Matches(Rules[10].pattern, path) {
      DecideIsFirstMatch(Rules, path, 10);
    } else {
      DecideIsFirstMatch(Rules, path, 11);
    }
  }

  /** A path matching a subtree pattern starts with the pattern's text. */
  lemma PrefixChars(path: string, prefix: string)
    requires Matches(Subtree(prefix), path)
    ensures |prefix| <= |path| && path[..|prefix|] == prefix
  {
    if path != prefix {
      assert path[..|prefix|] == (prefix + "/")[..|prefix|];
    }
  }

  /** A path starting `/ap` escapes the documentation and probe rules. */
  lemma MissDocsAndProbes(path: string)
    requires |path| > 2 && path[1] == 'a' && path[2] == 'p'
    ensures forall j :: 3 <= j < 10 ==> !Matches(Rules[j].pattern, path)
  {
    forall j | 3 <= j < 6
      ensures !Matches(Rules[j].pattern, path)
    {
      assert j == 3 || j == 4 || j == 5;
      MissAt(Rules[j].pattern, path, 1);
    }
    forall j | 6 <= j < 10
      ensures !Matches(Rules[j].pattern, path)
    {
      assert j == 6 || j == 7 || j == 8 || j == 9;
      MissAt(Rules[j].pattern, path, 2);
    }
  }

  /** A path under `/api/v1/` whose ninth character is none of `a`, `p` and `j` escapes the
      first ten rules. */
  lemma MissFirstTen(path: string, c: char)
    requires |path| > 8 && path[1] == 'a' && path[2] == 'p' && path[8] == c && c !in "apj"
    ensures forall j :: 0 <= j < 10 ==> !Matches(Rules[j].pattern, path)
  {
    forall j | 0 <= j < 3
      ensures !Matches(Rules[j].pattern, path)
    {
      assert j == 0 || j == 1 || j == 2;
      MissAt(Rules[j].pattern, path, 8);
    }
    MissDocsAndProbes(path);
  }

  /** The `ADMIN` rule for the bare medicines path never decides anything: every path it
      matches is matched before it by the `permitAll` rule for the medicines subtree. */
  lemma MedicinesAdminRuleShadowed(path: string)
    requires Matches(Rules[20].pattern, path)
    ensures Matches(Rules[11].pattern, path) && Decide(Rules, path) == PermitAll
  {
    assert path == "/api/v1/medicines";
    MedicinesOpen("");
  }

  /** The health probes and the metrics endpoint are open to anyone. */
  lemma ActuatorProbesOpen()
    ensures Decide(Rules, "/actuator/health") == PermitAll
    ensures Decide(Rules, "/actuator/health/liveness") == PermitAll
    ensures Decide(Rules, "/actuator/health/readiness") == PermitAll
    ensures Decide(Rules, "/actuator/prometheus") == PermitAll
  {
    ActuatorProbeOpen("/actuator/health", 6);
    ActuatorProbeOpen("/actuator/health/liveness", 7);
    ActuatorProbeOpen("/actuator/health/readiness", 8);
    ActuatorProbeOpen("/actuator/prometheus", 9);
  }

  lemma ActuatorProbeOpen(path: string, i: nat)
    requires 6 <= i < 10 && Rules[i].pattern == Exact(path)
    ensures Decide(Rules, path) == PermitAll
  {
    assert path[2] == 'c';
    MissesOffActuator(path);
    forall j | 6 <= j < i
      ensures !Matches(Rules[j].pattern, path)
    {
      assert j == 6 || j == 7 || j == 8;
    }
    DecideIsFirstMatch(Rules, path, i);
  }

  /** Only the actuator rules have a `c` as the third character of their text. */
  lemma ThirdCharNotC(j: nat)
    requires 0 <= j < 6 || 10 <= j < 22
    ensures |Key(Rules[j].pattern)| > 2 && Key(Rules[j].pattern)[2] != 'c'
  {
    if j < 6 {
      assert j == 0 || j == 1 || j == 2 || j == 3 || j == 4 || j == 5;
    } else if j < 16 {
      assert j == 10 || j == 11 || j == 12 || j == 13 || j == 14 || j == 15;
    } else {
      assert j == 16 || j == 17 || j == 18 || j == 19 || j == 20 || j == 21;
    }
  }

  /** A path whose third character is `c` matches none of the rules outside the actuator. */
  lemma MissesOffActuator(path: string)
    requires |path| > 2 && path[2] == 'c'
    ensures forall j :: 0 <= j < 6 || 10 <= j < 22 ==> !Matches(Rules[j].pattern, path)
  {
    forall j | 0 <= j < 6 || 10 <= j < 22
      ensures !Matches(Rules[j].pattern, path)
    {
      ThirdCharNotC(j);
      MissAt(Rules[j].pattern, path, 2);
    }
  }

  /** Any other path below the actuator needs the `ADMIN` role: the four exact rules come
      before the actuator subtree rule and nothing else matches. */
  lemma OtherActuatorPathsNeedAdmin(rest: string)
    requires "/actuator/" + rest != "/actuator/health" && "/actuator/" + rest != "/actuator/health/liveness"
    requires "/actuator/" + rest != "/actuator/health/readiness" && "/actuator/" + rest != "/actuator/prometheus"
    ensures Decide(Rules, "/actuator/" + rest) == HasRole("ADMIN")
  {
    var path := "/actuator/" + rest;
    assert path[2] == 'c';
    StartsWithAppend("/actuator/", rest);
    MissesOffActuator(path);
    forall j | 6 <= j < 10
      ensures !Matches(Rules[j].pattern, path)
    {
      assert j == 6 || j == 7 || j == 8 || j == 9;
    }
    DecideIsFirstMatch(Rules, path, 22);
  }

  /** The AI endpoints need an authenticated principal. */
  lemma AiNeedsAuthentication(rest: string)
    ensures Decide(Rules, "/api/v1/ai/" + rest) == Authenticated
  {
    var path := "/api/v1/ai/" + rest;
    assert path[..11] == "/api/v1/ai/";
    StartsWithAppend("/api/v1/ai/", rest);
    MissAt(Rules[0].pattern, path, 9);
    forall j | 1 <= j < 3
      ensures !Matches(Rules[j].pattern, path)
    {
      MissAt(Rules[j].pattern, path, 8);
    }
    MissDocsAndProbes(path);
    MissMedicinesAndPharmacies(path, 8);
    DecideIsFirstMatch(Rules, path, 19);
  }

  /** A path whose ninth character is neither `m` nor `p` escapes the medicines and
      pharmacies rules before the AI rule. */
  lemma MissMedicinesAndPharmacies(path: string, k: nat)
    requires k == 8 && |path| > 8 && path[8] != 'm' && path[8] != 'p'
    ensures forall j :: 10 <= j < 19 ==> !Matches(Rules[j].pattern, path)
  {
    forall j | 10 <= j < 13
      ensures !Matches(Rules[j].pattern, path)
    {
      assert j == 10 || j == 11 || j == 12;
      MissAt(Rules[j].pattern, path, k);
    }
    forall j | 13 <= j < 19
      ensures !Matches(Rules[j].pattern, path)
    {
      assert j == 13 || j == 14 || j == 15 || j == 16 || j == 17 || j == 18;
      MissAt(Rules[j].pattern, path, k);
    }
  }

  /** The pharmacy `permitAll` rules all name paths longer than the bare pharmacies path. */
  lemma PharmacySubtreesLonger(path: string)
    requires |path| == 18
    ensures forall j :: 13 <= j < 19 ==> !Matches(Rules[j].pattern, path)
  {
    forall j | 13 <= j < 19
      ensures !Matches(Rules[j].pattern, path)
    {
      assert j == 13 || j == 14 || j == 15 || j == 16 || j == 17 || j == 18;
      MissLonger(Rules[j].pattern, path);
    }
  }

  /** The bare pharmacies path, which no `permitAll` rule covers, needs the `ADMIN` role. */
  lemma PharmaciesNeedAdmin()
    ensures Decide(Rules, "/api/v1/pharmacies") == HasRole("ADMIN")
  {
    var path := "/api/v1/pharmacies";
    MissDocsAndProbes(path);
    PharmacySubtreesLonger(path);
    OtherApisMissPharmacies(path);
    DecideIsFirstMatch(Rules, path, 21);
  }

  /** The other API rules before the pharmacies rule differ from its path. */
  lemma OtherApisMissPharmacies(path: string)
    requires path == "/api/v1/pharmacies"
    ensures forall j :: 0 <= j < 3 || 10 <= j < 13 || 19 <= j < 21 ==> !Matches(Rules[j].pattern, path)
  {
    MissAt(Rules[0].pattern, path, 8);
    MissAt(Rules[1].pattern, path, 9);
    MissAt(Rules[2].pattern, path, 8);
    forall j | 10 <= j < 13
      ensures !Matches(Rules[j].pattern, path)
    {
      assert j == 10 || j == 11 || j == 12;
      MissAt(Rules[j].pattern, path, 8);
    }
    MissAt(Rules[19].pattern, path, 8);
    MissAt(Rules[20].pattern, path, 8);
  }

  /** A user passes an `ADMIN` rule exactly when one of its roles carries a permission named
      `ROLE_ADMIN`: authorities come from permission names only. */
  lemma AdminNeedsRoleAdminPermission(u: User)
    ensures Permits(HasRole("ADMIN"), Some(Authorities(u))) <==>
              exists r, p :: r in u.roles && p in r.permissions && p.name == "ROLE_ADMIN"
  {
    assert "ROLE_" + "ADMIN" == "ROLE_ADMIN";
  }

  /** The allowed origins: the configured value split on commas, nothing trimmed. */
  function AllowedOrigins(configured: string): (origins: seq<string>)
    ensures forall i :: 0 <= i < |origins| ==> ',' !in origins[i]
  {
    JavaSplit(configured, ',')
  }

  const DefaultAllowedOrigins := "http://localhost:3000,http://localhost:8080"

  /** When the value does not end with a comma, the origins are exactly its comma-separated
      pieces: joined back with commas they give the value itself, every space included. */
  lemma OriginsRoundTrip(configured: string)
    requires configured == "" || configured[|configured| - 1] != ','
    ensures Join(AllowedOrigins(configured), ",") == configured
  {
    if configured != "" {
      SplitLastNonEmpty(configured, ',');
      JoinSplit(configured, ',');
    }
  }

  /** With the default value there are two origins. */
  lemma DefaultOrigins()
    ensures AllowedOrigins(DefaultAllowedOrigins) == ["http://localhost:3000", "http://localhost:8080"]
  {
    var parts := ["http://localhost:3000", "http://localhost:8080"];
    DefaultIsJoined();
    SplitJoin(parts, ',');
    assert parts[1] != "";
  }

  lemma DefaultIsJoined()
    ensures Join(["http://localhost:3000", "http://localhost:8080"], ",") == DefaultAllowedOrigins
  {
    var parts := ["http://localhost:3000", "http://localhost:8080"];
    assert Join(parts, ",") == parts[0] + "," + Join(parts[1..], ",");
  }

  /** The last piece of a split is not empty when the string does not end with the
      delimiter. */
  lemma {:induction false} SplitLastNonEmpty(s: string, sep: char)
    requires |s| > 0 && s[|s| - 1] != sep
    ensures Split(s, sep)[|Split(s, sep)| - 1] != ""
    decreases |s|
  {
    if |s| > 1 {
      assert s[1..][|s[1..]| - 1] == s[|s| - 1];
      SplitLastNonEmpty(s[1..], sep);
    }
  }
}
