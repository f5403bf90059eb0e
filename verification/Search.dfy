/** The `search` command: offer suggestions named by title and valued with the offer id. */
module Search {
  import opened Wrappers
  import opened Discord
  import opened Catalog

  function Autocomplete(response: Option<seq<Offer>>): (r: seq<Choice>)
    ensures response.None? ==> r == []
    ensures response.Some? ==> |r| == Min(MaxChoices, |response.value|)
    ensures response.Some? ==> forall i :: 0 <= i < |r| ==>
              r[i] == Choice(response.value[i].title, response.value[i].id)
  {
    FirstChoices(response, (hit: Offer) => Choice(hit.title, hit.id))
  }
}
