/** Acceptance of a JWT and the roles it claims (internal/auth/jwt.go). The token library is
    represented by what it hands over: a parsed token, and whether a public key verifies it. */
module Token {
  import opened Options

  datatype Json = Str(s: string) | Num(n: real) | Arr(items: seq<Json>) | OtherJson

  type Claims = map<string, Json>

  datatype Jwt = Jwt(alg: string, header: map<string, Json>, claims: Claims)

  datatype Validator = Validator(issuer: string, audience: string)

  /** What ValidateJWT keeps of an accepted token. */
  datatype OAuthContext = OAuthContext(email: string, roles: seq<string>, subject: string, expiresAt: int)

  const RS256 := "RS256"

  /** Go's zero time, in seconds from 1970: the first instant of the year 1. */
  const ZERO_TIME := -62135596800

  /** int64(x) of a float64 in range: toward zero. */
  function Truncate(x: real): int {
    if x >= 0.0 then x.Floor else -((-x).Floor)
  }

  function Strings(items: seq<Json>): seq<string> {
    if items == [] then []
    else Strings(items[..|items| - 1]) + if items[|items| - 1].Str? then [items[|items| - 1].s] else []
  }

  /** The roles one claim contributes: the strings of a list, or the one string. */
  function RolesIn(claims: Claims, name: string): seq<string> {
    if name !in claims then []
    else match claims[name]
      case Arr(items) => Strings(items)
      case Str(s) => [s]
      case _ => []
  }

  function Roles(claims: Claims): seq<string> {
    RolesIn(claims, "role") + RolesIn(claims, "roles")
  }

  predicate AudienceOk(claims: Claims, audience: string) {
    "aud" in claims && (claims["aud"] == Str(audience) || (claims["aud"].Arr? && Str(audience) in claims["aud"].items))
  }

  function Expiry(claims: Claims): int {
    if "exp" in claims && claims["exp"].Num? then Truncate(claims["exp"].n) else ZERO_TIME
  }

  /** A token is accepted only with all of these, and then it is. */
  predicate Acceptable(v: Validator, claims: Claims, now: real) {
    && "iss" in claims && claims["iss"] == Str(v.issuer)
    && AudienceOk(claims, v.audience)
    && "email" in claims && claims["email"].Str? && claims["email"].s != ""
    && "sub" in claims && claims["sub"].Str? && claims["sub"].s != ""
    && now <= Expiry(claims) as real
  }

  method ExtractRoles(claims: Claims) returns (roles: seq<string>)
    ensures roles == Roles(claims)
  {
    roles := AppendRoles([], claims, "role");
    roles := AppendRoles(roles, claims, "roles");
  }

  method AppendRoles(before: seq<string>, claims: Claims, name: string) returns (roles: seq<string>)
    ensures roles == before + RolesIn(claims, name)
  {
    roles := before;
    if name in claims {
      match claims[name] {
        case Arr(items) =>
          for i := 0 to |items|
            invariant roles == before + Strings(items[..i])
          {
            assert items[..i + 1][..i] == items[..i];
            if items[i].Str? {
              roles := roles + [items[i].s];
            }
          }
          assert items[..|items|] == items;
        case Str(s) => roles := roles + [s];
        case _ =>
      }
    }
  }

  method ValidateAudience(claims: Claims, audience: string) returns (ok: bool)
    ensures ok <==> AudienceOk(claims, audience)
  {
    if "aud" !in claims {
      return false;
    }
    match claims["aud"] {
      case Str(s) => ok := s == audience;
      case Arr(items) =>
        var found := false;
        for i := 0 to |items|
          invariant !found && Str(audience) !in items[..i]
        {
          if items[i].Str? && items[i].s == audience {
            found := true;
            break;
          }
        }
        ok := found;
      case _ => ok := false;
    }
  }

  /** `keyFor` is getPublicKey, `verifies` the library's signature check under a public key. */
  method ValidateJWT<PublicKey(!new)>(token: Option<Jwt>, v: Validator, now: real, keyFor: string -> Option<PublicKey>,
                                verifies: (Jwt, PublicKey) -> bool)
    returns (oauth: Option<OAuthContext>)
    ensures oauth.Some? <==>
      && token.Some? && token.value.alg == "RS256"
      && "kid" in token.value.header && token.value.header["kid"].Str?
      && keyFor(token.value.header["kid"].s).Some?
      && verifies(token.value, keyFor(token.value.header["kid"].s).value)
      && Acceptable(v, token.value.claims, now)
    ensures oauth.Some? ==>
      && Str(oauth.value.email) == token.value.claims["email"] && Str(oauth.value.subject) == token.value.claims["sub"]
      && oauth.value.roles == Roles(token.value.claims) && oauth.value.expiresAt == Expiry(token.value.claims)
  {
    oauth := None;
    if token.None? || token.value.alg != RS256 || "kid" !in token.value.header || !token.value.header["kid"].Str? {
      return;
    }
    var key := keyFor(token.value.header["kid"].s);
    if key.None? || !verifies(token.value, key.value) {
      return;
    }
    var claims := token.value.claims;
    if "iss" !in claims || !claims["iss"].Str? || claims["iss"].s != v.issuer {
      return;
    }
    var audienceOk := ValidateAudience(claims, v.audience);
    if !audienceOk {
      return;
    }
    if "email" !in claims || !claims["email"].Str? || claims["email"].s == "" {
      return;
    }
    if "sub" !in claims || !claims["sub"].Str? || claims["sub"].s == "" {
      return;
    }
    var roles := ExtractRoles(claims);
    var expiresAt := ZERO_TIME;
    if "exp" in claims && claims["exp"].Num? {
      expiresAt := Truncate(claims["exp"].n);
    }
    if now > expiresAt as real {
      return;
    }
    oauth := Some(OAuthContext(claims["email"].s, roles, claims["sub"].s, expiresAt));
  }

  /** The whole second a time is in, toward zero. */
  predicate SecondOf(x: real, e: int) {
    if x >= 0.0 then e as real <= x < e as real + 1.0 else x <= e as real < x + 1.0
  }

  lemma TruncateIs(x: real)
    ensures SecondOf(x, Truncate(x))
    ensures forall e :: SecondOf(x, e) ==> e == Truncate(x)
  {
  }

  /** At any time the clock can show (from the first instant of the year 1, in seconds from 1970), a token is
      acceptable exactly if it has the issuer, the audience, an address and a subject, and says as a number when
      it expires: then through the second it names and not after. */
  lemma AcceptableExactly(v: Validator, claims: Claims, now: real)
    requires now > -62135596800.0
    ensures Acceptable(v, claims, now) <==>
      && "iss" in claims && claims["iss"] == Str(v.issuer)
      && "aud" in claims
      && (claims["aud"] == Str(v.audience) || (claims["aud"].Arr? && Str(v.audience) in claims["aud"].items))
      && "email" in claims && claims["email"].Str? && claims["email"].s != ""
      && "sub" in claims && claims["sub"].Str? && claims["sub"].s != ""
      && "exp" in claims && claims["exp"].Num?
      && exists e: int :: SecondOf(claims["exp"].n, e) && now <= e as real
  {
    if "exp" in claims && claims["exp"].Num? {
      TruncateIs(claims["exp"].n);
    }
  }

  /** A token that does not say when it expires, as a number, is refused at any time the clock can
      show; one that does is accepted through the second it names and not after. */
  lemma NoTokenWithoutExpiry(v: Validator, claims: Claims, now: real)
    requires now > -62135596800.0 && Acceptable(v, claims, now)
    ensures "exp" in claims && claims["exp"].Num?
    ensures claims["exp"].n >= 0.0 ==> now <= claims["exp"].n
    ensures claims["exp"].n < 0.0 ==> now < claims["exp"].n + 1.0
  {
  }

  /** The roles offered are the strings of the two claims, each a list or one string, `role` before `roles`. */
  lemma RolesAre(claims: Claims)
    ensures forall r :: r in Roles(claims) <==> Offers(claims, "role", r) || Offers(claims, "roles", r)
    ensures "role" in claims && "roles" in claims ==>
      match (claims["role"], claims["roles"])
      case (Str(a), Str(b)) => Roles(claims) == [a, b]
      case (Str(a), Arr(items)) => Roles(claims) == [a] + Strings(items)
      case (Arr(items), Str(b)) => Roles(claims) == Strings(items) + [b]
      case (Arr(items), Arr(more)) => Roles(claims) == Strings(items) + Strings(more)
      case _ => true
  {
    OffersIn(claims, "role");
    OffersIn(claims, "roles");
  }

  predicate Offers(claims: Claims, name: string, r: string) {
    name in claims && (claims[name] == Str(r) || (claims[name].Arr? && Str(r) in claims[name].items))
  }

  lemma OffersIn(claims: Claims, name: string)
    ensures forall r :: r in RolesIn(claims, name) <==> Offers(claims, name, r)
  {
    if name in claims && claims[name].Arr? {
      StringsAre(claims[name].items);
    }
  }

  lemma {:induction false} StringsAre(items: seq<Json>)
    ensures forall r :: r in Strings(items) <==> Str(r) in items
  {
    if items != [] {
      StringsAre(items[..|items| - 1]);
      assert items == items[..|items| - 1] + [items[|items| - 1]];
    }
  }

  /** Every claimed string role is offered, those of `role` before those of `roles`. */
  lemma {:induction false} StringsKeepOrder(items: seq<Json>, i: nat, j: nat)
    requires i < j < |items| && items[i].Str? && items[j].Str?
    ensures exists k, l ::
      0 <= k < l < |Strings(items)| && Strings(items)[k] == items[i].s && Strings(items)[l] == items[j].s
    decreases |items|
  {
    var init := items[..|items| - 1];
    if j < |items| - 1 {
      StringsKeepOrder(init, i, j);
      var k, l :| 0 <= k < l < |Strings(init)| && Strings(init)[k] == items[i].s && Strings(init)[l] == items[j].s;
      assert Strings(items)[k] == items[i].s && Strings(items)[l] == items[j].s;
    } else {
      StringsHave(init, i);
      var k :| 0 <= k < |Strings(init)| && Strings(init)[k] == items[i].s;
      assert Strings(items)[k] == items[i].s && Strings(items)[|Strings(init)|] == items[j].s;
    }
  }

  lemma {:induction false} StringsHave(items: seq<Json>, i: nat)
    requires i < |items| && items[i].Str?
    ensures exists k :: 0 <= k < |Strings(items)| && Strings(items)[k] == items[i].s
    decreases |items|
  {
    var init := items[..|items| - 1];
    if i < |items| - 1 {
      StringsHave(init, i);
      var k :| 0 <= k < |Strings(init)| && Strings(init)[k] == items[i].s;
      assert Strings(items)[k] == items[i].s;
    } else {
      assert Strings(items)[|Strings(init)|] == items[i].s;
    }
  }
}
