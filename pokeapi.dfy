/** PokeapiService.findMatchingPokemon: choose, among the creatures of the character's eye
    colour, the one whose height and weight are closest to the character's. */
module Pokeapi {
  import opened Wrappers
  import opened Http
  import Numbers

  const PokeapiBase := "https://pokeapi.co/api/v2/"
  const MatchPrefix := "Error al buscar el pokemon: "

  /** A `pokemon/{name}` body: height in decimetres, weight in hectograms, and the names of its
      types (`types[].type.name`) in order. */
  datatype Detail = Detail(name: string, height: real, weight: real, types: seq<string>)

  /** The matched creature attached to a merged record (its `type` field is `typeList` here,
      `type` being a Dafny keyword): height in centimetres, weight in
      kilograms, type names joined into one string. */
  datatype Pokemon = Pokemon(name: string, height: real, weight: real, typeList: string)

  /** The running minimum of the selection loop, which starts at `Infinity`. */
  datatype Bound = Infinity | Finite(value: real)

  /** The colour-list URL; an absent `eye_color` is interpolated as "undefined". */
  function ColourUrl(eyeColour: Option<string>): string
  {
    PokeapiBase + "pokemon-color/" + (match eyeColour case Some(c) => c case None => "undefined")
  }

  function DetailUrl(name: string): string
  {
    PokeapiBase + "pokemon/" + name
  }

  // ---------------------------------------------------------------------------------------
  // Type names: `.map((t) => t.type.name).join(", ")`

  function JoinTypes(names: seq<string>): string
  {
    if |names| == 0 then ""
    else if |names| == 1 then names[0]
    else names[0] + ", " + JoinTypes(names[1..])
  }

  /** The index of the first ", " separator in `s`, or |s| when there is none. */
  function SeparatorIndex(s: string): (k: nat)
    ensures k <= |s|
    ensures k < |s| ==> k + 1 < |s| && s[k] == ',' && s[k + 1] == ' '
    ensures forall j | 0 <= j < k :: !(j + 1 < |s| && s[j] == ',' && s[j + 1] == ' ')
  {
    if |s| < 2 then |s|
    else if s[0] == ',' && s[1] == ' ' then 0
    else
      var k := SeparatorIndex(s[1..]);
      if k == |s| - 1 then |s| else k + 1
  }

  /** Splits a string at every ", " separator: the inverse of `JoinTypes`. */
  function SplitTypes(s: string): seq<string>
    decreases |s|
  {
    var k := SeparatorIndex(s);
    if k == |s| then [s] else [s[..k]] + SplitTypes(s[k + 2..])
  }

  /** Joining type names that hold no comma can be undone: the joined string lists each name,
      in order. */
  lemma {:induction false} JoinThenSplit(names: seq<string>)
    requires |names| >= 1
    requires forall i | 0 <= i < |names| :: ',' !in names[i]
    ensures SplitTypes(JoinTypes(names)) == names
  {
    var s := JoinTypes(names);
    if |names| == 1 {
      assert SeparatorIndex(s) == |s|;
    } else {
      var n0 := names[0];
      var rest := JoinTypes(names[1..]);
      assert s == n0 + ", " + rest;
      assert s[|n0|] == ',' && s[|n0| + 1] == ' ';
      var k := SeparatorIndex(s);
      assert k == |n0|;
      assert s[..k] == n0;
      assert s[k + 2..] == rest;
      JoinThenSplit(names[1..]);
    }
  }

  // ---------------------------------------------------------------------------------------
  // Normalisation and scoring

  /** Height ×10 (decimetres to centimetres), weight ÷10 (hectograms to kilograms). */
  function Normalise(d: Detail): (p: Pokemon)
    ensures p.name == d.name && p.typeList == JoinTypes(d.types)
    ensures p.height / 10.0 == d.height && p.weight * 10.0 == d.weight
  {
    Pokemon(d.name, d.height * 10.0, d.weight / 10.0, JoinTypes(d.types))
  }

  function Abs(x: real): real { if x < 0.0 then -x else x }

  /** |H − 10h| + |M − w/10| for numeric targets H and M. */
  function Score(h: real, m: real, d: Detail): real
  {
    Abs(h - d.height * 10.0) + Abs(m - d.weight / 10.0)
  }

  /** A score is never negative, and it is zero exactly when the normalised creature matches
      both targets. */
  lemma ScoreZero(h: real, m: real, d: Detail)
    ensures Score(h, m, d) >= 0.0
    ensures Score(h, m, d) == 0.0 <==> Normalise(d).height == h && Normalise(d).weight == m
  {
  }

  /** `k` is the position of the first candidate with the least score. */
  ghost predicate IsFirstMin(h: real, m: real, ds: seq<Detail>, k: int)
  {
    && 0 <= k < |ds|
    && (forall j | 0 <= j < |ds| :: Score(h, m, ds[k]) <= Score(h, m, ds[j]))
    && (forall j | 0 <= j < k :: Score(h, m, ds[k]) < Score(h, m, ds[j]))
  }

  /** Argmin, first wins: the specification of the selection loop. Scanning left to right, a
      candidate replaces the best so far only when its score is strictly smaller. */
  function FirstMinIndex(h: real, m: real, ds: seq<Detail>): (k: nat)
    requires |ds| > 0
    ensures k < |ds|
    decreases |ds|
  {
    if |ds| == 1 then 0
    else
      var k := FirstMinIndex(h, m, ds[..|ds| - 1]);
      if Score(h, m, ds[|ds| - 1]) < Score(h, m, ds[k]) then |ds| - 1 else k
  }

  /** The position `FirstMinIndex` computes holds a least score, and every earlier position a
      strictly larger one. */
  lemma {:induction false} FirstMinIndexIsFirstMin(h: real, m: real, ds: seq<Detail>)
    requires |ds| > 0
    ensures IsFirstMin(h, m, ds, FirstMinIndex(h, m, ds))
    decreases |ds|
  {
    if |ds| > 1 {
      var init := ds[..|ds| - 1];
      FirstMinIndexIsFirstMin(h, m, init);
      assert forall j | 0 <= j < |init| :: init[j] == ds[j];
    }
  }

  /** The first least-score position is determined by the scores alone. */
  lemma FirstMinUnique(h: real, m: real, ds: seq<Detail>, k1: int, k2: int)
    requires IsFirstMin(h, m, ds, k1) && IsFirstMin(h, m, ds, k2)
    ensures k1 == k2
  {
    assert Score(h, m, ds[k1]) == Score(h, m, ds[k2]);
  }

  /** One more candidate: it takes over exactly when it is the first one or its score is
      strictly below the best so far. */
  lemma FirstMinStep(h: real, m: real, ds: seq<Detail>, i: nat, k: nat)
    requires i < |ds|
    requires i > 0 ==> k == FirstMinIndex(h, m, ds[..i])
    ensures FirstMinIndex(h, m, ds[..i + 1]) ==
      if i == 0 || Score(h, m, ds[i]) < Score(h, m, ds[k]) then i else k
  {
    assert ds[..i + 1][..i] == ds[..i];
  }

  /** `Math.floor(Math.random() * n)` for a draw 0 <= random < 1. */
  function PickIndex(random: real, n: nat): (k: nat)
    requires 0.0 <= random < 1.0 && n > 0
    ensures k < n
  {
    assert 0.0 <= random * n as real < n as real;
    (random * n as real).Floor
  }

  /** The match settled on for the surviving details `ds`: with numeric targets, the first
      least-score candidate; with a NaN target, the drawn one; none when nothing survived. */
  function Chosen(height: Option<real>, mass: Option<real>, ds: seq<Detail>, random: real)
    : (best: Option<Pokemon>)
    requires 0.0 <= random < 1.0
  {
    if ds == [] then None
    else if height.Some? && mass.Some? then Some(Normalise(ds[FirstMinIndex(height.value, mass.value, ds)]))
    else Some(Normalise(ds[PickIndex(random, |ds|)]))
  }

  /** The result is absent exactly when no detail survived; otherwise it is one of the
      survivors, normalised. */
  lemma ChosenIsSurvivor(height: Option<real>, mass: Option<real>, ds: seq<Detail>, random: real)
    requires 0.0 <= random < 1.0
    ensures Chosen(height, mass, ds, random).None? <==> ds == []
    ensures Chosen(height, mass, ds, random).Some? ==>
      exists k | 0 <= k < |ds| :: Chosen(height, mass, ds, random).value == Normalise(ds[k])
  {
    if ds != [] {
      if height.Some? && mass.Some? {
        var k := FirstMinIndex(height.value, mass.value, ds);
        assert Chosen(height, mass, ds, random).value == Normalise(ds[k]);
      } else {
        var k := PickIndex(random, |ds|);
        assert Chosen(height, mass, ds, random).value == Normalise(ds[k]);
      }
    }
  }

  /** With numeric targets the chosen creature's score is no larger than any survivor's, and
      strictly smaller than that of every survivor listed before it. */
  lemma ChosenMinimises(h: real, m: real, ds: seq<Detail>, random: real)
    requires 0.0 <= random < 1.0 && ds != []
    ensures exists k | 0 <= k < |ds| ::
      && Chosen(Some(h), Some(m), ds, random) == Some(Normalise(ds[k]))
      && (forall j | 0 <= j < |ds| :: Score(h, m, ds[k]) <= Score(h, m, ds[j]))
      && (forall j | 0 <= j < k :: Score(h, m, ds[k]) < Score(h, m, ds[j]))
  {
    FirstMinIndexIsFirstMin(h, m, ds);
  }

  /** The selection loop of findMatchingPokemon, with its random fallback. */
  method SelectBest(height: Option<real>, mass: Option<real>, ds: seq<Detail>, random: real)
    returns (best: Option<Pokemon>)
    requires 0.0 <= random < 1.0
    ensures best == Chosen(height, mass, ds, random)
  {
    best := None;
    var minDifference := Infinity;
    ghost var k: nat := 0;
    for i := 0 to |ds|
      invariant height.Some? && mass.Some? && i > 0 ==>
        && k == FirstMinIndex(height.value, mass.value, ds[..i])
        && best == Some(Normalise(ds[k]))
        && minDifference == Finite(Score(height.value, mass.value, ds[k]))
      invariant !(height.Some? && mass.Some? && i > 0) ==> best == None && minDifference == Infinity
    {
      var heightCm := ds[i].height * 10.0;
      var weightKg := ds[i].weight / 10.0;
      // A NaN target makes the total NaN, and `NaN < minDifference` is false.
      if height.Some? && mass.Some? {
        var totalDiff := Abs(height.value - heightCm) + Abs(mass.value - weightKg);
        assert totalDiff == Score(height.value, mass.value, ds[i]);
        FirstMinStep(height.value, mass.value, ds, i, k);
        if minDifference.Infinity? || totalDiff < minDifference.value {
          minDifference := Finite(totalDiff);
          best := Some(Pokemon(ds[i].name, heightCm, weightKg, JoinTypes(ds[i].types)));
          k := i;
        }
      }
    }
    assert ds[..|ds|] == ds;
    if best.None? && |ds| > 0 {
      var picked := ds[PickIndex(random, |ds|)];
      best := Some(Pokemon(picked.name, picked.height * 10.0, picked.weight / 10.0, JoinTypes(picked.types)));
    }
  }

  // ---------------------------------------------------------------------------------------
  // Building the candidate list

  /** One detail fetch per listed name, in list order (`Promise.all` keeps the order). */
  function DetailResponses(names: seq<string>, fetchDetail: string -> Response<Detail>)
    : (rs: seq<Response<Detail>>)
    ensures |rs| == |names|
    ensures forall i | 0 <= i < |names| :: rs[i] == fetchDetail(DetailUrl(names[i]))
  {
    seq(|names|, i requires 0 <= i < |names| => fetchDetail(DetailUrl(names[i])))
  }

  /** Fetching the details of two lists is fetching those of their concatenation: the i-th answer
      is always the i-th name's. */
  lemma DetailResponsesAppend(a: seq<string>, b: seq<string>, fetchDetail: string -> Response<Detail>)
    ensures DetailResponses(a + b, fetchDetail) == DetailResponses(a, fetchDetail) + DetailResponses(b, fetchDetail)
  {
  }

  /** `.filter((p) => p !== null)`: the bodies of the ok detail responses. */
  function Survivors(rs: seq<Response<Detail>>): (ds: seq<Detail>)
    ensures |ds| <= |rs|
    ensures ds == [] <==> forall i | 0 <= i < |rs| :: !rs[i].Okay?
    ensures forall j | 0 <= j < |ds| :: Okay(ds[j]) in rs
  {
    if rs == [] then []
    else (if rs[0].Okay? then [rs[0].body] else []) + Survivors(rs[1..])
  }

  /** Dropping the failed fetches keeps the survivors in the colour list's order: the filter
      distributes over concatenation. */
  lemma {:induction false} SurvivorsAppend(a: seq<Response<Detail>>, b: seq<Response<Detail>>)
    ensures Survivors(a + b) == Survivors(a) + Survivors(b)
  {
    if a == [] {
      assert a + b == b;
    } else {
      assert (a + b)[0] == a[0] && (a + b)[1..] == a[1..] + b;
      SurvivorsAppend(a[1..], b);
    }
  }

  /** The message `Promise.all` rejects with when some detail fetch threw (the first in list
      order), or `None`. */
  function FirstThrown(rs: seq<Response<Detail>>): (e: Option<string>)
    ensures e.None? <==> forall i | 0 <= i < |rs| :: !rs[i].Threw?
    ensures e.Some? ==> Threw(e.value) in rs
  {
    if rs == [] then None
    else if rs[0].Threw? then Some(rs[0].message)
    else FirstThrown(rs[1..])
  }

  /** findMatchingPokemon for a character with the given `eye_color`, `height` and `mass`.
      `fetchColour` and `fetchDetail` answer the two kinds of request by URL; `random` is the
      value `Math.random()` returns. */
  method FindMatchingPokemon(eyeColour: Option<string>, height: string, mass: string,
                             fetchColour: string -> Response<seq<string>>,
                             fetchDetail: string -> Response<Detail>,
                             random: real)
    returns (r: Result<Option<Pokemon>>)
    requires 0.0 <= random < 1.0
    ensures fetchColour(ColourUrl(eyeColour)).NotOk? ==> r == Ok(None)
    ensures fetchColour(ColourUrl(eyeColour)).Threw? ==>
      r == Err(Plain(MatchPrefix + fetchColour(ColourUrl(eyeColour)).message))
    ensures fetchColour(ColourUrl(eyeColour)).Okay? ==>
      var rs := DetailResponses(fetchColour(ColourUrl(eyeColour)).body, fetchDetail);
      r == match FirstThrown(rs)
           case Some(message) => Err(Plain(MatchPrefix + message))
           case None => Ok(Chosen(Numbers.ToNumber(height), Numbers.ToNumber(mass), Survivors(rs), random))
  {
    var colourResponse := fetchColour(ColourUrl(eyeColour));
    match colourResponse
    case Threw(message) =>
      r := Err(Wrap(MatchPrefix, Plain(message)));
    case NotOk =>
      // the source logs "No se pudo obtener la lista de Pokémon por color"
      r := Ok(None);
    case Okay(names) =>
      var responses := DetailResponses(names, fetchDetail);
      var thrown := FirstThrown(responses);
      if thrown.Some? {
        r := Err(Wrap(MatchPrefix, Plain(thrown.value)));
      } else {
        var details := Survivors(responses);
        var best := SelectBest(Numbers.ToNumber(height), Numbers.ToNumber(mass), details, random);
        r := Ok(best);
      }
  }

  /** Target 170 / 70: bulbasaur (7, 69) scores 163.1 and charmander (10, 150) scores 125, so
      charmander is chosen, normalised to 100 cm and 15 kg. */
  lemma CharmanderExample(random: real)
    requires 0.0 <= random < 1.0
    ensures Chosen(Some(170.0), Some(70.0),
                   [Detail("bulbasaur", 7.0, 69.0, ["grass"]), Detail("charmander", 10.0, 150.0, ["fire"])],
                   random)
         == Some(Pokemon("charmander", 100.0, 15.0, "fire"))
  {
    var ds := [Detail("bulbasaur", 7.0, 69.0, ["grass"]), Detail("charmander", 10.0, 150.0, ["fire"])];
    assert Score(170.0, 70.0, ds[1]) < Score(170.0, 70.0, ds[0]);
    assert FirstMinIndex(170.0, 70.0, ds) == 1 by {
      assert ds[..1] == [ds[0]];
    }
  }
}
