/** Encoder modes a Host advertises and the mode a stream runs under
    (apps/viewer-expo/src/encoder-experiment.ts). */
module EncoderExperiments {
  import opened Wrappers

  datatype Experiment = Auto | RateControl | AdaptiveQp | EncoderPool | SplitVertical

  /** One advertised entry after its fields were read: an unknown id is `None`, and
      a label or hint is blank when it is missing or only white space. */
  datatype Advert = Advert(id: Option<Experiment>, blankLabel: bool, blankHint: bool, requiresReconnect: bool)

  predicate Usable(a: Advert) {
    a.id.Some? && !a.blankLabel && !a.blankHint && a.requiresReconnect
  }

  predicate Offers(adverts: seq<Advert>, e: Experiment) {
    exists k :: 0 <= k < |adverts| && Usable(adverts[k]) && adverts[k].id == Some(e)
  }

  /** A mode is offered by an entry of its id that has a label and a hint and asks for a
      reconnect. */
  lemma OffersIff(adverts: seq<Advert>, e: Experiment)
    ensures Offers(adverts, e) <==>
            exists k :: 0 <= k < |adverts| && adverts[k].id == Some(e) && !adverts[k].blankLabel && !adverts[k].blankHint
                        && adverts[k].requiresReconnect
  {
  }

  const SPLIT_4K_WIDTH := 3840.0
  const SPLIT_4K_HEIGHT := 2160.0

  predicate Is4K(width: real, height: real) {
    width >= SPLIT_4K_WIDTH && height >= SPLIT_4K_HEIGHT
  }

  /** The first usable entry for a mode. */
  predicate FirstOffer(adverts: seq<Advert>, e: Experiment, k: nat) {
    && k < |adverts| && Usable(adverts[k]) && adverts[k].id == Some(e)
    && forall m :: 0 <= m < k ==> !(Usable(adverts[m]) && adverts[m].id == Some(e))
  }

  /** The usable modes, each once, in the order of their first usable entries, which
      `positions` names. */
  method NormalizeEncoderExperiments(adverts: seq<Advert>) returns (normalized: seq<Experiment>, ghost positions: seq<nat>)
    ensures forall e :: e in normalized <==> Offers(adverts, e)
    ensures forall i, j :: 0 <= i < j < |normalized| ==> normalized[i] != normalized[j]
    ensures |positions| == |normalized|
    ensures forall i :: 0 <= i < |normalized| ==> FirstOffer(adverts, normalized[i], positions[i])
    ensures forall i, j :: 0 <= i < j < |positions| ==> positions[i] < positions[j]
  {
    normalized, positions := [], [];
    var seen: set<Experiment> := {};
    for n := 0 to |adverts|
      invariant forall e :: e in normalized <==> e in seen
      invariant forall e :: e in seen <==>
                  exists k :: 0 <= k < n && Usable(adverts[k]) && adverts[k].id == Some(e)
      invariant forall i, j :: 0 <= i < j < |normalized| ==> normalized[i] != normalized[j]
      invariant |positions| == |normalized|
      invariant forall i :: 0 <= i < |normalized| ==> positions[i] < n && FirstOffer(adverts, normalized[i], positions[i])
      invariant forall i, j :: 0 <= i < j < |positions| ==> positions[i] < positions[j]
    {
      if Usable(adverts[n]) && adverts[n].id.value !in seen {
        assert FirstOffer(adverts, adverts[n].id.value, n);
        seen := seen + {adverts[n].id.value};
        normalized := normalized + [adverts[n].id.value];
        positions := positions + [n];
      }
    }
  }

  /** Which modes are available at a size: below 4K only the automatic one. */
  predicate Available(adverts: seq<Advert>, width: real, height: real, e: Experiment) {
    Offers(adverts, e) && (Is4K(width, height) || e == Auto)
  }

  function Resolve(selected: Experiment, adverts: seq<Advert>, width: real, height: real): Experiment {
    if Available(adverts, width, height, selected) then selected else Auto
  }

  function SelectAutomatic(
    selected: Experiment, adverts: seq<Advert>, width: real, height: real, udp: bool): Experiment
  {
    var resolved := Resolve(selected, adverts, width, height);
    if resolved != Auto || !Is4K(width, height) then resolved
    else if !udp then resolved
    else if Available(adverts, width, height, Auto) && Available(adverts, width, height, SplitVertical)
    then SplitVertical
    else resolved
  }

  /** Whether a start may need two decoders, predicted before the transport is
      known (decoder-budget.ts). */
  predicate RequestedDecoderShape(selected: Experiment, adverts: seq<Advert>, width: real, height: real) {
    var resolved := Resolve(selected, adverts, width, height);
    if resolved == SplitVertical then true
    else if resolved != Auto then false
    else Available(adverts, width, height, SplitVertical)
  }

  /** The prediction never undershoots: whatever transport the start resolves to,
      a split selection was predicted. Below 4K nothing is ever split. */
  lemma PredictionCoversSelection(
    selected: Experiment, adverts: seq<Advert>, width: real, height: real, udp: bool)
    ensures var chosen := SelectAutomatic(Resolve(selected, adverts, width, height), adverts, width, height, udp);
            && (chosen == SplitVertical ==> RequestedDecoderShape(selected, adverts, width, height))
            && (!Is4K(width, height) ==> chosen == Auto && !RequestedDecoderShape(selected, adverts, width, height))
  {
  }
}
