/** Waves: their combined force, their aging each tick, and how a new one is spawned. */
module Waves {
  import opened GameTypes
  import opened Tuning
  import opened Steering
  import opened Walls

  // ---------------------------------------------------------------- force

  function Add(a: Position, b: Position): Position
  {
    Position(a.x + b.x, a.y + b.y)
  }

  /**
   * The push one wave gives: its direction scaled by strength times sin(progress * pi).
   * `sinPi(t)` stands for sin(t * pi), which the model leaves to the caller.
   */
  function Contribution(w: Wave, sinPi: real -> real): Position
  {
    var waveForce := sinPi(w.progress) * w.strength;
    Position(w.direction.x * waveForce, w.direction.y * waveForce)
  }

  /** Every wave is well formed and its pulse sin(progress * pi) lies in [-1, 1], as a sine does. */
  predicate Bounded(ws: seq<Wave>, sinPi: real -> real)
  {
    forall i :: 0 <= i < |ws| ==> WellFormed(ws[i]) && -1.0 <= sinPi(ws[i].progress) <= 1.0
  }

  /** One well-formed wave pushes by at most its strength, along its axis. */
  lemma ContributionBounded(w: Wave, sinPi: real -> real)
    requires WellFormed(w) && -1.0 <= sinPi(w.progress) <= 1.0
    ensures Abs(Contribution(w, sinPi).x) + Abs(Contribution(w, sinPi).y) <= WaveForce
  {
    var f := sinPi(w.progress) * w.strength;
    assert -WaveForce <= f <= WaveForce;
  }

  /** The combined force of a list of waves: the component-wise sum of their contributions. */
  function Force(ws: seq<Wave>, sinPi: real -> real): Position
  {
    if ws == [] then Position(0.0, 0.0)
    else Add(Contribution(ws[0], sinPi), Force(ws[1..], sinPi))
  }

  /** Well-formed waves push by at most 0.15 each, summed over both axes. */
  lemma {:induction false} ForceBounded(ws: seq<Wave>, sinPi: real -> real)
    requires Bounded(ws, sinPi)
    ensures Abs(Force(ws, sinPi).x) + Abs(Force(ws, sinPi).y) <= WaveForce * |ws| as real
  {
    if ws != [] {
      ContributionBounded(ws[0], sinPi);
      assert Bounded(ws[1..], sinPi) by {
        forall i | 0 <= i < |ws[1..]|
          ensures WellFormed(ws[1..][i]) && -1.0 <= sinPi(ws[1..][i].progress) <= 1.0
        {
          assert ws[1..][i] == ws[i + 1];
        }
      }
      ForceBounded(ws[1..], sinPi);
    }
  }

  /** The sum splits over any split of the list, so each wave adds its own contribution independently. */
  lemma {:induction false} ForceConcat(a: seq<Wave>, b: seq<Wave>, sinPi: real -> real)
    ensures Force(a + b, sinPi) == Add(Force(a, sinPi), Force(b, sinPi))
  {
    if a == [] {
      assert a + b == b;
    } else {
      assert (a + b)[1..] == a[1..] + b;
      ForceConcat(a[1..], b, sinPi);
    }
  }

  /** Waves whose pulse is zero exert no force; in particular freshly spawned waves, since sin(0) = 0. */
  lemma {:induction false} SilentWavesExertNoForce(ws: seq<Wave>, sinPi: real -> real)
    requires forall i :: 0 <= i < |ws| ==> sinPi(ws[i].progress) == 0.0
    ensures Force(ws, sinPi) == Position(0.0, 0.0)
  {
    if ws != [] {
      SilentWavesExertNoForce(ws[1..], sinPi);
    }
  }

  /** The accumulation loop of the tick: adds up every wave's push, first to last. */
  method TotalForce(ws: seq<Wave>, sinPi: real -> real) returns (f: Position)
    ensures f == Force(ws, sinPi)
  {
    var totalX, totalY := 0.0, 0.0;
    for i := 0 to |ws|
      invariant Position(totalX, totalY) == Force(ws[..i], sinPi)
    {
      assert ws[..i + 1] == ws[..i] + [ws[i]];
      ForceConcat(ws[..i], [ws[i]], sinPi);
      var waveForce := sinPi(ws[i].progress) * ws[i].strength;
      totalX := totalX + ws[i].direction.x * waveForce;
      totalY := totalY + ws[i].direction.y * waveForce;
    }
    assert ws[..|ws|] == ws;
    f := Position(totalX, totalY);
  }

  // ---------------------------------------------------------------- aging

  function Aged(w: Wave): Wave
  {
    w.(progress := w.progress + ProgressStep)
  }

  /** Every wave moves one step on; those that reach progress 1 are dropped. */
  function AgeWaves(ws: seq<Wave>): (r: seq<Wave>)
    ensures |r| <= |ws|
    ensures forall i :: 0 <= i < |r| ==> r[i].progress < 1.0
  {
    if ws == [] then []
    else
      var a := Aged(ws[0]);
      (if a.progress < 1.0 then [a] else []) + AgeWaves(ws[1..])
  }

  /** A wave survives aging exactly when its advanced progress is still below 1. */
  lemma {:induction false} AgeWavesKeepsExactlyLive(ws: seq<Wave>, i: int)
    requires 0 <= i < |ws|
    ensures Aged(ws[i]) in AgeWaves(ws) <==> ws[i].progress + ProgressStep < 1.0
  {
    if ws[i].progress + ProgressStep < 1.0 && i > 0 {
      AgeWavesKeepsExactlyLive(ws[1..], i - 1);
    }
  }

  /** Nothing appears from nowhere: every survivor is a wave of the input, one step further on. */
  lemma {:induction false} AgeWavesOnlyAges(ws: seq<Wave>, w: Wave)
    requires w in AgeWaves(ws)
    ensures w.(progress := w.progress - ProgressStep) in ws
  {
    var a := Aged(ws[0]);
    if a.progress < 1.0 && w == a {
      assert w.(progress := w.progress - ProgressStep) == ws[0];
    } else {
      assert w in AgeWaves(ws[1..]);
      AgeWavesOnlyAges(ws[1..], w);
    }
  }

  /** Aging distributes over concatenation, so survivors keep their relative order. */
  lemma {:induction false} AgeWavesConcat(a: seq<Wave>, b: seq<Wave>)
    ensures AgeWaves(a + b) == AgeWaves(a) + AgeWaves(b)
  {
    if a == [] {
      assert a + b == b;
    } else {
      assert (a + b)[1..] == a[1..] + b;
      AgeWavesConcat(a[1..], b);
    }
  }

  /** When no wave is about to expire, aging drops nothing and advances each wave in place. */
  lemma {:induction false} AgeWavesNoneExpiring(ws: seq<Wave>)
    requires forall i :: 0 <= i < |ws| ==> ws[i].progress + ProgressStep < 1.0
    ensures |AgeWaves(ws)| == |ws|
    ensures forall i :: 0 <= i < |ws| ==> AgeWaves(ws)[i] == Aged(ws[i])
  {
    if ws != [] {
      AgeWavesNoneExpiring(ws[1..]);
    }
  }

  /** The shape every live wave has: strength 0.15, an axis heading, progress in [0, 1). */
  predicate WellFormed(w: Wave)
  {
    w.strength == WaveForce && IsHeading(w.direction) && 0.0 <= w.progress < 1.0
  }

  lemma {:induction false} AgeWavesKeepsWellFormed(ws: seq<Wave>)
    requires forall i :: 0 <= i < |ws| ==> WellFormed(ws[i])
    ensures forall i :: 0 <= i < |AgeWaves(ws)| ==> WellFormed(AgeWaves(ws)[i])
  {
    if ws != [] {
      AgeWavesKeepsWellFormed(ws[1..]);
      var a := Aged(ws[0]);
      var rest := AgeWaves(ws[1..]);
      if a.progress < 1.0 {
        assert AgeWaves(ws) == [a] + rest;
      } else {
        assert AgeWaves(ws) == rest;
      }
    }
  }

  // ---------------------------------------------------------------- spawning

  const Centre: Position := Position(12.0, 12.0)

  /**
   * The wave that enters from `edge` (0 top, on the line y = -1; 1 right, on x = 24; 2 bottom,
   * on y = 24; any other value left, on x = -1) at offset `position` along it: it starts
   * outside the walls, at that offset, and pushes
   * along the edge's normal towards the centre of the grid, with strength 0.15 and no progress yet.
   */
  function WaveFromEdge(edge: int, position: int): (w: Wave)
    ensures WellFormed(w) && w.progress == 0.0
    ensures HitsWall(w.origin)
    ensures edge == 0 ==> w.origin.y == -1.0
    ensures edge == 1 ==> w.origin.x == GridSize as real
    ensures edge == 2 ==> w.origin.y == GridSize as real
    ensures edge != 0 && edge != 1 && edge != 2 ==> w.origin.x == -1.0
    ensures (Centre.x - w.origin.x) * w.direction.x + (Centre.y - w.origin.y) * w.direction.y > 0.0
    ensures edge == 0 || edge == 2 ==> w.origin.x == position as real && w.direction.x == 0.0
    ensures edge != 0 && edge != 2 ==> w.origin.y == position as real && w.direction.y == 0.0
  {
    var g := GridSize as real;
    var p := position as real;
    Wave(
      if edge == 0 then Position(p, -1.0)
      else if edge == 1 then Position(g, p)
      else if edge == 2 then Position(p, g)
      else Position(-1.0, p),
      if edge == 0 then Position(0.0, 1.0)
      else if edge == 1 then Position(-1.0, 0.0)
      else if edge == 2 then Position(0.0, -1.0)
      else Position(1.0, 0.0),
      WaveForce,
      0.0)
  }

  /** The edge a uniform draw in [0, 1) picks: floor(r * 4). */
  function EdgeOf(edgeRoll: real): int
  {
    (edgeRoll * 4.0).Floor
  }

  /** The offset along the edge a uniform draw in [0, 1) picks: floor(r * 24). */
  function OffsetOf(positionRoll: real): int
  {
    (positionRoll * GridSize as real).Floor
  }

  /**
   * One spawn attempt: the cap is checked against `seen`, the list the spawner reads,
   * while the new wave is appended to `current`, the live list.
   */
  function SpawnAttempt(current: seq<Wave>, seen: seq<Wave>, roll: real, edgeRoll: real, positionRoll: real): (r: seq<Wave>)
    ensures |current| <= |r| <= |current| + 1 && r[..|current|] == current
    ensures |r| == |current| + 1 <==> roll <= WaveSpawnChance && |seen| < MaxWaves
  {
    if roll > WaveSpawnChance || |seen| >= MaxWaves then current
    else current + [WaveFromEdge(EdgeOf(edgeRoll), OffsetOf(positionRoll))]
  }

  /** A closed gate changes nothing; an open one appends exactly one fresh, inward-pointing wave. */
  lemma SpawnAttemptOutcome(current: seq<Wave>, seen: seq<Wave>, roll: real, edgeRoll: real, positionRoll: real)
    ensures var r := SpawnAttempt(current, seen, roll, edgeRoll, positionRoll);
      if roll > WaveSpawnChance || |seen| >= MaxWaves then r == current
      else
        && |r| == |current| + 1 && r[..|current|] == current
        && r[|current|] == WaveFromEdge(EdgeOf(edgeRoll), OffsetOf(positionRoll))
        && WellFormed(r[|current|]) && r[|current|].progress == 0.0
        && HitsWall(r[|current|].origin)
        && var w := r[|current|];
           (Centre.x - w.origin.x) * w.direction.x + (Centre.y - w.origin.y) * w.direction.y > 0.0
  {
  }

  /** With the guard reading the live list, a list within the cap stays within it. */
  lemma SpawnKeepsCap(ws: seq<Wave>, roll: real, edgeRoll: real, positionRoll: real)
    requires |ws| <= MaxWaves
    ensures |SpawnAttempt(ws, ws, roll, edgeRoll, positionRoll)| <= MaxWaves
  {
  }

  /**
   * The spawner registered once at start-up keeps reading the wave list of that first
   * moment, which is empty: three lucky rolls in a row then leave three waves alive.
   */
  lemma StaleCapAdmitsThirdWave()
    ensures |SpawnAttempt(SpawnAttempt(SpawnAttempt([], [], 0.0, 0.0, 0.0), [], 0.0, 0.0, 0.0), [], 0.0, 0.0, 0.0)| == 3 > MaxWaves
  {
  }
}
