/** The bookkeeping of the registration game: a buffer of display states
    drawn at random without replacement, and a countdown of rounds that adds
    up the ablation scores. */
module RegistrationGame {
  import opened Common

  /** Which statistics are shown (fiducial count, actual TRE, expected TRE,
      expected FRE, FRE, last score, total score, margin, repeats) and the
      name of the state. */
  datatype VisState = VisState(
    fidsText: bool, treText: bool, expTreText: bool, expFreText: bool, freText: bool,
    scoreText: bool, totalScoreText: bool, marginText: bool, repeatsText: bool,
    stateName: string)

  const FleAndFids: VisState :=
    VisState(true, false, false, false, false, true, true, true, true, "FLE and Number of Fids")
  const ExpTre: VisState :=
    VisState(false, false, true, false, false, true, true, true, true, "Expected TRE")
  const ExpFre: VisState :=
    VisState(false, false, false, true, false, true, true, true, true, "Expected FRE")
  const ActualFre: VisState :=
    VisState(false, false, false, false, true, true, true, true, true, "Actual FRE")

  /** The states a bin holds, in the order they are appended. */
  const Bin: seq<VisState> := [FleAndFids, ExpTre, ExpFre, ActualFre]

  /** The buffer after `bins` rounds of appending one of each state. */
  function Buffer(bins: nat): (b: seq<VisState>)
    ensures |b| == 4 * bins
  {
    if bins == 0 then [] else Buffer(bins - 1) + Bin
  }

  /** Each of the four states appears `bins` times in the buffer, and nothing
      else appears in it. */
  lemma {:induction false} BufferCounts(bins: nat, s: VisState)
    ensures multiset(Buffer(bins))[s] == if s in Bin then bins else 0
  {
    if bins > 0 {
      BufferCounts(bins - 1, s);
      assert FleAndFids.stateName != ExpTre.stateName;
      assert multiset(Buffer(bins)) == multiset(Buffer(bins - 1)) + multiset(Bin);
      if s == FleAndFids {
        assert multiset(Bin)[s] == 1;
      } else if s == ExpTre {
        assert multiset(Bin)[s] == 1;
      } else if s == ExpFre {
        assert multiset(Bin)[s] == 1;
      } else if s == ActualFre {
        assert multiset(Bin)[s] == 1;
      } else {
        assert multiset(Bin)[s] == 0;
      }
    }
  }

  class VisibilitySettings {
    var stateList: seq<VisState>

    /** Appends one bin of states `eachBin` times. */
    constructor (eachBin: nat)
      ensures stateList == Buffer(eachBin)
    {
      stateList := [];
      new;
      var i := 0;
      while i < eachBin
        invariant 0 <= i <= eachBin
        invariant stateList == Buffer(i)
      {
        stateList := stateList + [FleAndFids];
        stateList := stateList + [ExpTre];
        stateList := stateList + [ExpFre];
        stateList := stateList + [ActualFre];
        i := i + 1;
      }
    }

    /** VisibilitySettings(buffer_size): rejects a size that is not a multiple
        of 4; otherwise holds buffer_size / 4 copies of each state (none when
        the size is negative). */
    static method New(bufferSize: int) returns (r: Result<VisibilitySettings>)
      ensures r.Err? <==> bufferSize % 4 != 0
      ensures r.Err? ==> r.error == ValueError
      ensures r.Ok? ==> fresh(r.value)
      ensures r.Ok? && 0 <= bufferSize ==> r.value.stateList == Buffer(bufferSize / 4)
      ensures r.Ok? && bufferSize < 0 ==> r.value.stateList == []
    {
      if bufferSize % 4 != 0 {
        return Err(ValueError);
      }
      var eachBin := bufferSize / 4;
      var settings := new VisibilitySettings(if eachBin < 0 then 0 else eachBin);
      return Ok(settings);
    }

    /** Shuffles the buffer and pops its last state. `shuffled` is the order
        the shuffle produced. An empty buffer raises IndexError. */
    method GetVisState(shuffled: seq<VisState>) returns (r: Result<VisState>)
      requires multiset(shuffled) == multiset(stateList)
      modifies this
      ensures r.Err? <==> old(stateList) == []
      ensures r.Err? ==> r.error == IndexError && stateList == []
      ensures r.Ok? ==> r.value in old(stateList)
      ensures r.Ok? ==> multiset(stateList) + multiset{r.value} == multiset(old(stateList))
      ensures |stateList| == if r.Ok? then |old(stateList)| - 1 else 0
    {
      stateList := shuffled;
      if stateList == [] {
        return Err(IndexError);
      }
      var last := stateList[|stateList| - 1];
      stateList := stateList[..|stateList| - 1];
      assert shuffled == stateList + [last];
      assert last in multiset(shuffled);
      return Ok(last);
    }
  }

  /** A key press: the arrow keys, 'a' (ablate), or anything else. */
  datatype Key = Up | Down | A | OtherKey

  const Rounds: int := 20
  const BufferSize: int := Rounds - 4

  /** The number of states left for `repeats` rounds to go: one per round
      from repeats 17 down to 2. */
  function StatesLeft(repeats: int): int {
    if repeats - 1 < BufferSize then repeats - 1 else BufferSize
  }

  class Game {
    var repeats: int
    var totalScore: real
    var current: VisState
    var visibilitySetter: VisibilitySettings

    /** Between 1 and 20 rounds remain and the buffer holds exactly one state
        for each remaining round that will draw one. */
    ghost predicate Valid()
      reads this, visibilitySetter
    {
      1 <= repeats <= Rounds && |visibilitySetter.stateList| == StatesLeft(repeats)
    }

    /** A new game: 20 rounds, a buffer of 16 states, a total score of 0, and
        the actual TRE shown first. */
    constructor ()
      ensures Valid() && fresh(visibilitySetter)
      ensures repeats == Rounds && totalScore == 0.0
      ensures current == VisState(true, true, false, false, false, true, true, true, true, "Actual TRE")
      ensures multiset(visibilitySetter.stateList) == multiset(Buffer(4))
    {
      var settings := VisibilitySettings.New(BufferSize);
      assert settings.Ok?;
      repeats := Rounds;
      totalScore := 0.0;
      current := VisState(true, true, false, false, false, true, true, true, true, "Actual TRE");
      visibilitySetter := settings.value;
    }

    /** keypress_event. On 'a' with a successful registration and a score,
        the score is added; then, while rounds remain, the round count drops
        by one, drawing a new display state for rounds 17 down to 2;
        otherwise the game is over. The ablation score and registration
        status are parameters and `shuffled` is the shuffle of the buffer. */
    method KeyPress(key: Key, regOk: bool, score: Option<real>, shuffled: seq<VisState>)
      returns (gameOver: bool)
      requires Valid()
      requires multiset(shuffled) == multiset(visibilitySetter.stateList)
      modifies this, visibilitySetter
      ensures Valid()
      ensures visibilitySetter == old(visibilitySetter)
      ensures var scored := key == A && regOk && score.Some?;
              && (scored ==> totalScore == old(totalScore) + score.value)
              && (!scored ==>
                    totalScore == old(totalScore) && repeats == old(repeats) && current == old(current) &&
                    visibilitySetter.stateList == old(visibilitySetter.stateList))
              && (scored && old(repeats) > 1 ==> repeats == old(repeats) - 1)
              && (scored && old(repeats) <= 1 ==> repeats == old(repeats))
              && (gameOver <==> scored && old(repeats) <= 1)
      ensures key == A && regOk && score.Some? && (old(repeats) >= 18 || old(repeats) <= 1) ==>
                current == old(current) && visibilitySetter.stateList == old(visibilitySetter.stateList)
      ensures old(repeats) < 18 && repeats == old(repeats) - 1 ==>
                current in old(visibilitySetter.stateList) &&
                multiset(visibilitySetter.stateList) + multiset{current} == multiset(old(visibilitySetter.stateList))
    {
      gameOver := false;
      if key == A && regOk && score.Some? {
        totalScore := totalScore + score.value;
        if repeats > 1 {
          if repeats < 18 {
            var state := visibilitySetter.GetVisState(shuffled);
            assert state.Ok?;
            current := state.value;
          }
          repeats := repeats - 1;
        } else {
          gameOver := true;
        }
      }
    }
  }
}
