/** What both halves of provider monitoring look at. Times are milliseconds, thresholds seconds. */
module Monitoring {
  import opened Common

  type ProviderId = string

  // A monitored provider: those without a threshold are filtered out beforehand.
  datatype Provider = Provider(id: ProviderId, threshold: int)

  predicate DistinctIds(providers: seq<Provider>) {
    forall i, j | 0 <= i < j < |providers| :: providers[i].id != providers[j].id
  }

  function Latest(latest: map<ProviderId, int>, id: ProviderId): Option<int> {
    if id in latest then Some(latest[id]) else None
  }

  // The period recorder compares exact seconds.
  predicate Problematic(provider: Provider, latest: Option<int>, now: int) {
    latest.None? || now - latest.value > 1000 * provider.threshold
  }

  // Nearest whole second, halves up.
  function RoundSeconds(ms: int): int {
    (ms + 500) / 1000
  }

  // The notifier compares rounded seconds.
  predicate ProblematicRounded(provider: Provider, latest: Option<int>, now: int) {
    latest.None? || RoundSeconds(now - latest.value) > provider.threshold
  }

  // The two tests differ only within the half second after the threshold, where a problematic
  // period is already open and no warning is due yet.
  lemma RoundingGap(provider: Provider, latest: Option<int>, now: int)
    ensures ProblematicRounded(provider, latest, now) ==> Problematic(provider, latest, now)
    ensures Problematic(provider, latest, now) && !ProblematicRounded(provider, latest, now) <==>
              latest.Some? && 0 < now - latest.value - 1000 * provider.threshold < 500
  {
  }
}
