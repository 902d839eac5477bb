/**
 * The journey map's six stations, derived from the number of wonders
 * visited: each station covers a band of visits, unlocks when its band
 * starts and is completed when its band is full.
 */
module JourneyMap {
  import opened Wrappers
  import opened ExplorerTypes

  datatype Station = Station(id: int, title: string, isUnlocked: bool, isCompleted: bool, wonderCount: int)

  /** Where each station's band starts and ends. */
  const Lo: seq<int> := [0, 10, 30, 60, 100, 150]
  const Hi: seq<int> := [10, 30, 60, 100, 150, 196]

  /** `studentProgress?.wondersVisited || 0`. */
  function WondersVisited(progress: Option<StudentProgress>): (w: int)
    ensures progress.None? ==> w == 0
    ensures progress.Some? ==> w == progress.value.wondersVisited
  {
    if progress.Some? && progress.value.wondersVisited != 0 then progress.value.wondersVisited else 0
  }

  function Min(a: int, b: int): int { if a < b then a else b }
  function Max(a: int, b: int): int { if a > b then a else b }

  /** The station list as the page builds it. */
  function Stations(w: int): (s: seq<Station>)
    ensures |s| == 6
    ensures forall k :: 0 <= k < 6 ==> s[k].id == k + 1
    ensures s[0].isUnlocked
    ensures forall k :: 1 <= k < 6 ==> (s[k].isUnlocked <==> w >= Lo[k])
    ensures forall k :: 0 <= k < 6 ==> (s[k].isCompleted <==> w >= Hi[k])
  {
    [ Station(1, "THE FIRST STATION", true, w >= 10, Min(w, 10)),
      Station(2, "MOUNTAIN VALLEY", w >= 10, w >= 30, Min(Max(w - 10, 0), 20)),
      Station(3, "DESERT OASIS", w >= 30, w >= 60, Min(Max(w - 30, 0), 30)),
      Station(4, "OCEAN SHORES", w >= 60, w >= 100, Min(Max(w - 60, 0), 40)),
      Station(5, "FOREST KINGDOM", w >= 100, w >= 150, Min(Max(w - 100, 0), 50)),
      Station(6, "THE FINAL WONDER", w >= 150, w >= 196, Min(Max(w - 150, 0), 46)) ]
  }

  /** Completing a station unlocks the next one. */
  lemma CompletionUnlocksNext(w: int, k: int)
    requires 0 <= k < 5
    ensures Stations(w)[k].isCompleted ==> Stations(w)[k + 1].isUnlocked
  {
  }

  /** Both flags only ever switch on as more wonders are visited. */
  lemma FlagsMonotone(w: int, w': int, k: int)
    requires w <= w' && 0 <= k < 6
    ensures Stations(w)[k].isUnlocked ==> Stations(w')[k].isUnlocked
    ensures Stations(w)[k].isCompleted ==> Stations(w')[k].isCompleted
  {
  }

  /**
   * For a non-negative count, each station's count lies between 0 and its
   * band's width, and reaches that width exactly when the station is completed.
   */
  lemma CountsWithinCaps(w: int, k: int)
    requires w >= 0 && 0 <= k < 6
    ensures 0 <= Stations(w)[k].wonderCount <= Hi[k] - Lo[k]
    ensures Stations(w)[k].wonderCount == Hi[k] - Lo[k] <==> Stations(w)[k].isCompleted
  {
  }

  /** The sum of the stations' counts. */
  function CountSum(s: seq<Station>): int
  {
    if s == [] then 0 else s[0].wonderCount + CountSum(s[1..])
  }

  /** The bands tile 0..196, so the counts add up to the visits, capped at 196. */
  lemma CountsAddUp(w: int)
    requires w >= 0
    ensures CountSum(Stations(w)) == Min(w, 196)
  {
    var s := Stations(w);
    assert CountSum(s[6..]) == 0;
    assert CountSum(s[5..]) == s[5].wonderCount + CountSum(s[6..]);
    assert CountSum(s[4..]) == s[4].wonderCount + CountSum(s[5..]);
    assert CountSum(s[3..]) == s[3].wonderCount + CountSum(s[4..]);
    assert CountSum(s[2..]) == s[2].wonderCount + CountSum(s[3..]);
    assert CountSum(s[1..]) == s[1].wonderCount + CountSum(s[2..]);
    assert CountSum(s) == s[0].wonderCount + CountSum(s[1..]);
  }

  /** Clicking a station navigates to the explorer only when it is unlocked. */
  function StationClick(station: Station): (route: Option<string>)
    ensures route.Some? <==> station.isUnlocked
    ensures route.Some? ==> route.value == "/student/explorer"
  {
    if station.isUnlocked then Some("/student/explorer") else None
  }
}
