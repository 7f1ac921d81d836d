/** SwapiService.getCharacter: fetch one person and drop the fields the merged record does not
    keep. */
module Swapi {
  import opened Wrappers
  import opened Http
  import opened Json

  const SwapiBase := "https://swapi.dev/api/people/"

  /** The six keys deleted from every fetched person. */
  const Excluded: set<string> := {"films", "species", "vehicles", "starships", "created", "edited"}

  function PersonUrl(characterId: string): string
  {
    SwapiBase + characterId + "/"
  }

  function NotFoundMessage(characterId: string): string
  {
    "El personaje con el id " + characterId + " no existe"
  }

  /** The person with the excluded keys gone and every other key untouched. */
  function Stripped(body: Record): (r: Record)
    ensures r.Keys == body.Keys - Excluded
    ensures forall k | k in r :: r[k] == body[k]
  {
    body - Excluded
  }

  /** Stripping twice is stripping once, and a record with none of the excluded keys is left
      exactly as it was. */
  lemma StrippedIdempotent(body: Record)
    ensures Stripped(Stripped(body)) == Stripped(body)
    ensures body.Keys !! Excluded ==> Stripped(body) == body
  {
    assert Stripped(Stripped(body)).Keys == Stripped(body).Keys;
    if body.Keys !! Excluded {
      assert Stripped(body).Keys == body.Keys;
    }
  }

  /** What getCharacter(characterId) settles to when the request to its URL answers `response`. */
  function Outcome(characterId: string, response: Response<Record>): (r: Result<Record>)
    ensures response.Threw? ==> r == Err(Plain(response.message))
    ensures response.NotOk? ==> r.Err? && r.error.NotFound? && r.error.message == NotFoundMessage(characterId)
    ensures response.Okay? ==> r == Ok(Stripped(response.body))
  {
    match response
    case Threw(message) => Err(Plain(message))
    case NotOk => Err(NotFound(NotFoundMessage(characterId)))
    case Okay(body) => Ok(Stripped(body))
  }

  /** getCharacter(characterId); `fetchPerson` answers a request by URL. A transport failure
      propagates unwrapped, a non-ok answer is a not-found, an ok answer loses the six keys. */
  method GetCharacter(characterId: string, fetchPerson: string -> Response<Record>)
    returns (r: Result<Record>)
    ensures r == Outcome(characterId, fetchPerson(PersonUrl(characterId)))
    ensures r.Ok? ==> forall k | k in r.value :: k !in Excluded && r.value[k] == fetchPerson(PersonUrl(characterId)).body[k]
  {
    var response := fetchPerson(PersonUrl(characterId));
    if response.Threw? {
      r := Err(Plain(response.message));
      return;
    }
    if response.NotOk? {
      r := Err(NotFound(NotFoundMessage(characterId)));
      return;
    }
    var characterData := response.body;
    characterData := characterData - {"films"};
    characterData := characterData - {"species"};
    characterData := characterData - {"vehicles"};
    characterData := characterData - {"starships"};
    characterData := characterData - {"created"};
    characterData := characterData - {"edited"};
    assert characterData == Stripped(response.body);
    r := Ok(characterData);
  }
}
