/** The Joi schemas of the merged routes as predicates over request data. The UUID and URI
    grammars and `JSON.parse` are parameters. */
module Schema {
  import opened Wrappers
  import opened Json
  import Numbers

  /** Joi refuses numbers beyond ±(2^53 − 1) unless told otherwise. */
  const MaxSafeInteger: real := 9007199254740991.0
  const Genders: set<string> := {"male", "female", "unknown", "n/a"}
  const CharacterKeys: set<string> :=
    {"name", "height", "mass", "hair_color", "skin_color", "eye_color", "birth_year", "gender",
     "homeworld", "url", "matching_pokemon"}
  const MatchKeys: set<string> := {"name", "height", "weight", "type"}
  const CursorKeys: set<string> := {"id", "dummy", "timestamp"}

  /** `Joi.number()` with its default conversion: a number, or a string holding a signed decimal
      literal, possibly with an exponent, between optional white space. Unlike JavaScript's `+`,
      an empty or all-white-space string is refused. */
  function JoiNumber(v: Value): Option<real>
  {
    match v
    case Num(n) => Some(n)
    case Str(s) => if Numbers.Trim(s) == "" then None else Numbers.SignedLiteral(Numbers.Trim(s))
    case _ => None
  }

  /** `Joi.number().integer()`. */
  predicate JoiInteger(v: Value)
  {
    match JoiNumber(v)
    case Some(n) => n.Floor as real == n && -MaxSafeInteger <= n <= MaxSafeInteger
    case None => false
  }

  /** `Joi.string()`: a string, and not the empty one. */
  predicate JoiString(v: Value)
  {
    v.Str? && v.s != ""
  }

  /** `Joi.object({...})`: an object with no key outside the declared ones. */
  predicate ObjectOf(v: Value, declared: set<string>)
  {
    v.Obj? && v.fields.Keys <= declared
  }

  /** An optional `Joi.string()` key. */
  predicate OptionalString(f: map<string, Value>, k: string)
  {
    k in f ==> JoiString(f[k])
  }

  /** validateCharacterId, applied to the route parameters. */
  predicate ValidCharacterId(params: Value)
  {
    ObjectOf(params, {"characterId"}) && "characterId" in params.fields && JoiInteger(params.fields["characterId"])
  }

  /** The `matching_pokemon` sub-schema. */
  predicate ValidMatchingPokemon(v: Value)
  {
    && ObjectOf(v, MatchKeys)
    && "name" in v.fields && JoiString(v.fields["name"])
    && "height" in v.fields && JoiInteger(v.fields["height"])
    && "weight" in v.fields && JoiInteger(v.fields["weight"])
    && "type" in v.fields && JoiString(v.fields["type"])
  }

  /** validateCharacter, applied to the request body; `isUri` is Joi's URI check. */
  predicate ValidCharacter(body: Value, isUri: string -> bool)
  {
    && ObjectOf(body, CharacterKeys)
    && var f := body.fields;
    && "name" in f && JoiString(f["name"])
    && "height" in f && JoiInteger(f["height"])
    && "mass" in f && JoiInteger(f["mass"])
    && "gender" in f && f["gender"].Str? && f["gender"].s in Genders
    && OptionalString(f, "hair_color") && OptionalString(f, "skin_color")
    && OptionalString(f, "eye_color") && OptionalString(f, "birth_year")
    && ("homeworld" in f ==> JoiString(f["homeworld"]) && isUri(f["homeworld"].s))
    && ("url" in f ==> JoiString(f["url"]) && isUri(f["url"].s))
    && ("matching_pokemon" in f ==> ValidMatchingPokemon(f["matching_pokemon"]))
  }

  /** The cursor sub-schema the custom rule applies to the parsed text; `isUuid` is Joi's UUID
      check. */
  predicate ValidCursorObject(v: Value, isUuid: string -> bool)
  {
    && ObjectOf(v, CursorKeys)
    && "id" in v.fields && JoiString(v.fields["id"]) && isUuid(v.fields["id"].s)
    && "dummy" in v.fields && JoiString(v.fields["dummy"])
    && "timestamp" in v.fields && JoiInteger(v.fields["timestamp"])
  }

  /** The custom rule on `lastEvaluatedKey`: `parse` is `JSON.parse` (`None` when it throws); text
      that does not parse, or parses to something the sub-schema refuses, is invalid. */
  predicate ValidCursor(text: string, isUuid: string -> bool, parse: string -> Option<Value>)
  {
    parse(text).Some? && ValidCursorObject(parse(text).value, isUuid)
  }

  /** validateHistoryPagination, applied to the query string. */
  predicate ValidHistoryPagination(query: Value, isUuid: string -> bool, parse: string -> Option<Value>)
  {
    && ObjectOf(query, {"lastEvaluatedKey", "limit"})
    && ("lastEvaluatedKey" in query.fields ==>
          JoiString(query.fields["lastEvaluatedKey"]) && ValidCursor(query.fields["lastEvaluatedKey"].s, isUuid, parse))
    && ("limit" in query.fields ==>
          JoiInteger(query.fields["limit"]) && 1.0 <= JoiNumber(query.fields["limit"]).value <= 100.0)
  }

  // -----------------------------------------------------------------------------------------

  /** Joi converts every string holding something other than white space as `+` does. */
  lemma JoiNumberAsPlus(s: string, i: nat)
    requires i < |s| && !Numbers.IsSpace(s[i])
    ensures JoiNumber(Str(s)) == Numbers.ToNumber(s)
  {
    Numbers.TrimKeeps(s, i);
  }

  /** A value Joi converts to a natural number passes the integer rule exactly when it is within
      the safe range. */
  lemma NaturalIsInteger(v: Value, x: nat)
    requires JoiNumber(v) == Some(x as real)
    ensures JoiInteger(v) <==> x as real <= MaxSafeInteger
  {
    assert (x as real).Floor == x;
  }

  /** A path parameter holding a natural number in decimal, with white space around it or not,
      passes validateCharacterId exactly when the number is within Joi's safe range. */
  lemma CharacterIdDigits(pad1: string, n: nat, pad2: string)
    requires forall j | 0 <= j < |pad1| :: Numbers.IsSpace(pad1[j])
    requires forall j | 0 <= j < |pad2| :: Numbers.IsSpace(pad2[j])
    ensures ValidCharacterId(Obj(map["characterId" := Str(pad1 + Numbers.NatToString(n) + pad2)]))
        <==> n as real <= MaxSafeInteger
  {
    var s := Numbers.NatToString(n);
    Numbers.PaddingIgnored(pad1, s, pad2);
    Numbers.DigitIsNotSpace(s[0]);
    JoiNumberAsPlus(s, 0);
    Numbers.NatToStringToNumber(n);
    NaturalIsInteger(Str(pad1 + s + pad2), n);
  }

  /** A path parameter in exponent notation, `<m>e<k>`, passes exactly when m × 10^k is within
      the safe range. */
  lemma CharacterIdExponent(m: nat, k: nat)
    ensures ValidCharacterId(Obj(map["characterId" := Str(Numbers.NatToString(m) + "e" + Numbers.NatToString(k))]))
        <==> Numbers.TimesPow10(m, k) as real <= MaxSafeInteger
  {
    var s := Numbers.NatToString(m) + "e" + Numbers.NatToString(k);
    assert s[0] == Numbers.NatToString(m)[0];
    Numbers.DigitIsNotSpace(s[0]);
    JoiNumberAsPlus(s, 0);
    Numbers.ExponentNotation(m, k);
    NaturalIsInteger(Str(s), Numbers.TimesPow10(m, k));
  }

  /** A path parameter holding a character that no number spelling contains (a comma, a slash) is
      refused. */
  lemma CharacterIdRejectsText(s: string, i: nat)
    requires i < |s| && !Numbers.IsNumeralChar(s[i])
    ensures !ValidCharacterId(Obj(map["characterId" := Str(s)]))
  {
    Numbers.NonNumeralIsNaN(s, i);
    JoiNumberAsPlus(s, i);
  }

  /** A `limit` in the query string, written in decimal with or without white space around it, is
      accepted exactly when 1 <= limit <= 100. */
  lemma LimitRange(pad1: string, n: nat, pad2: string, isUuid: string -> bool, parse: string -> Option<Value>)
    requires forall j | 0 <= j < |pad1| :: Numbers.IsSpace(pad1[j])
    requires forall j | 0 <= j < |pad2| :: Numbers.IsSpace(pad2[j])
    ensures ValidHistoryPagination(Obj(map["limit" := Str(pad1 + Numbers.NatToString(n) + pad2)]), isUuid, parse)
        <==> 1 <= n <= 100
  {
    var s := Numbers.NatToString(n);
    Numbers.PaddingIgnored(pad1, s, pad2);
    Numbers.DigitIsNotSpace(s[0]);
    JoiNumberAsPlus(s, 0);
    Numbers.NatToStringToNumber(n);
  }

  /** `"1e5"` is a valid id, read as 100000. */
  lemma ExponentIdExample()
    ensures ValidCharacterId(Obj(map["characterId" := Str("1e5")]))
  {
    assert Numbers.NatToString(1) + "e" + Numbers.NatToString(5) == "1e5" by {
      assert Numbers.NatToString(1) == "1" && Numbers.NatToString(5) == "5";
    }
    assert Numbers.TimesPow10(1, 5) == 100000;
    CharacterIdExponent(1, 5);
  }

  /** `" 7"` is a valid id: white space around a number is ignored. */
  lemma PaddedIdExample()
    ensures ValidCharacterId(Obj(map["characterId" := Str(" 7")]))
  {
    assert Numbers.NatToString(7) == "7";
    assert " " + "7" + "" == " 7";
    CharacterIdDigits(" ", 7, "");
  }

  /** `"1,358"` is no id: a comma belongs to no spelling of a number. */
  lemma CommaIdExample()
    ensures !ValidCharacterId(Obj(map["characterId" := Str("1,358")]))
  {
    CharacterIdRejectsText("1,358", 1);
  }

  /** A cursor that does not parse, or whose parsed value fails the sub-schema, makes the query
      invalid; a valid one carries a UUID `id`, a string `dummy` and an integer `timestamp`. */
  lemma CursorRule(text: string, isUuid: string -> bool, parse: string -> Option<Value>)
    ensures parse(text).None? ==>
      !ValidHistoryPagination(Obj(map["lastEvaluatedKey" := Str(text)]), isUuid, parse)
    ensures ValidHistoryPagination(Obj(map["lastEvaluatedKey" := Str(text)]), isUuid, parse) ==>
      && parse(text).Some? && parse(text).value.Obj?
      && var f := parse(text).value.fields;
      && f.Keys <= CursorKeys
      && "id" in f && f["id"].Str? && isUuid(f["id"].s)
      && "dummy" in f && f["dummy"].Str?
      && "timestamp" in f && JoiInteger(f["timestamp"])
  {
  }

  /** The smallest body validateCharacter accepts: its four required fields. Its gender must be one
      of the four listed values, and any key outside the schema spoils it. */
  lemma RequiredCharacterFields(name: string, height: nat, mass: nat, gender: string, extra: string,
                                isUri: string -> bool)
    requires name != "" && height as real <= MaxSafeInteger && mass as real <= MaxSafeInteger
    ensures var body := map["name" := Str(name), "height" := Num(height as real),
                            "mass" := Num(mass as real), "gender" := Str(gender)];
      && (ValidCharacter(Obj(body), isUri) <==> gender in Genders)
      && (extra !in CharacterKeys ==> !ValidCharacter(Obj(body[extra := Null]), isUri))
  {
    var body := map["name" := Str(name), "height" := Num(height as real),
                    "mass" := Num(mass as real), "gender" := Str(gender)];
    assert body.Keys == {"name", "height", "mass", "gender"};
    if extra !in CharacterKeys {
      assert extra in body[extra := Null].Keys;
    }
  }
}
