// transform.py: the origin timestamps of events.
module Origins {
  function Following(previous: int, now: int): int {
    if now <= previous then previous + 1 else now
  }

  // The origin after these clock readings, one for each event.
  function Origin(previous: int, clock: seq<int>): int
    decreases |clock|, previous
  {
    if clock == [] then previous else Following(Origin(previous, clock[..|clock| - 1]), clock[|clock| - 1])
  }

  // What reading i pushes the origin after n events to.
  function Pushed(clock: seq<int>, i: nat): int
    requires i < |clock|
  {
    clock[i] + (|clock| - 1 - i)
  }

  predicate Bounds(previous: int, clock: seq<int>, origin: int) {
    previous + |clock| <= origin && forall i :: 0 <= i < |clock| ==> Pushed(clock, i) <= origin
  }

  predicate Attained(previous: int, clock: seq<int>, origin: int) {
    previous + |clock| == origin || exists i :: 0 <= i < |clock| && Pushed(clock, i) == origin
  }

  // For any clock, even one that runs backwards, the origin is the largest of
  // the pushes: the clock as soon as it is ahead, and one more each time
  // otherwise.
  lemma {:induction false} OriginIsMax(previous: int, clock: seq<int>)
    ensures Bounds(previous, clock, Origin(previous, clock)) && Attained(previous, clock, Origin(previous, clock))
    decreases |clock|
  {
    if clock != [] {
      var n := |clock| - 1;
      var init := clock[..n];
      OriginIsMax(previous, init);
      var before, origin := Origin(previous, init), Origin(previous, clock);
      forall i | 0 <= i < |clock| ensures Pushed(clock, i) <= origin {
        if i < n { assert Pushed(init, i) <= before; }
      }
      if clock[n] > before {
        assert Pushed(clock, n) == origin;
      } else if previous + |init| != before {
        var i :| 0 <= i < |init| && Pushed(init, i) == before;
        assert Pushed(clock, i) == origin;
      }
    }
  }

  // Any two events get different origins, in order.
  lemma {:induction false} OriginsIncrease(previous: int, clock: seq<int>, i: nat, j: nat)
    requires i < j <= |clock|
    ensures Origin(previous, clock[..i]) < Origin(previous, clock[..j])
    decreases j
  {
    assert clock[..j][..j - 1] == clock[..j - 1];
    if i < j - 1 { OriginsIncrease(previous, clock, i, j - 1); }
  }

  class OriginSource {
    var previousOrigin: int

    constructor ()
      ensures previousOrigin == 0
    {
      previousOrigin := 0;
    }

    // `get_unique_origin`
    method GetUniqueOrigin(time: int) returns (origin: int)
      modifies this
      ensures origin == previousOrigin == Following(old(previousOrigin), time)
    {
      var now := time;
      if now <= previousOrigin {
        now := previousOrigin + 1;
      }
      previousOrigin := now;
      return now;
    }
  }
}
