/**
 * The daily-routine finite state machine as values: the five states, the agent's
 * resources (energy, hunger), the random draws an hour consumes, and one transition
 * function per state. The class in routine_fsm.dfy is proved to follow these functions.
 */
module RoutineModel {

  /** The five behavioural states; the machine starts in Sleep. */
  datatype State = Sleep | Eat | Study | DoChores | Rest

  /** Which message an hour produces: one tag per branch of the state bodies. */
  datatype Note =
    // Sleep
    | AirAlarm | Snoozing | FeelHorrible | RiseAndShine | NapHungry | NapSupper | NapBackToWork
    // Eat
    | Breakfast | Supper | TastyButTired | Delicious
    // Rest (the resting phrase mixed into most of these is flavour and is not modelled)
    | RestHungry | Resting | RestTired | LostTrackOfTime | RestSupper | RestBackToWork
    // Study
    | StudyHungry | StudySupper | StudyLate | StudyTired | StudyFun | StudyToRest
    // DoChores
    | ChoresHungry | ChoresSupper | NoTimeToSleep | AlarmOver | AlarmGoesOn
    | ChoresTired | ChoresFinished | StillWorking

  /** The two ways an hour can raise instead of producing a message. */
  datatype Fault =
    | MissingArgument     // the message printer called with one argument (TypeError)
    | GeneratorExhausted  // sending an hour to a state body that an earlier error closed

  datatype Outcome = Said(note: Note) | Failed(fault: Fault)

  /**
   * The random values one hour may consume, chosen by the caller:
   * gain is randint(5, 10) (Sleep's recovery, Study's and DoChores' drain),
   * restGain is randint(1, 5) (Rest's recovery), bite is randint(1, 7) (hunger growth),
   * chance says whether the hour's `random.random() <= p` test came out true, and
   * pick is the index a two-way random.choice returns.
   */
  datatype Draws = Draws(gain: int, restGain: int, bite: int, chance: bool, pick: int)

  predicate WellFormed(d: Draws) {
    5 <= d.gain <= 10 && 1 <= d.restGain <= 5 && 1 <= d.bite <= 7 && 0 <= d.pick < 2
  }

  /**
   * The machine's observable state. `halted` records that the current state's body
   * has been closed by an error escaping it; only Rest's body can raise.
   */
  datatype Agent = Agent(energy: int, hunger: int, state: State, halted: bool)

  /** What one hour does: the agent afterwards and the message or error produced. */
  datatype Step = Step(after: Agent, outcome: Outcome)

  /** What holds of every agent the machine can reach. */
  predicate Invariant(a: Agent) {
    0 <= a.energy <= 100 && 0 <= a.hunger && (a.halted ==> a.state == Rest)
  }

  function Initial(): (a: Agent)
    ensures Invariant(a) && !a.halted
  {
    Agent(100, 0, Sleep, false)
  }

  /** The energy setter's clamp: the nearest value in [0, 100]. */
  function Clamp(value: int): (r: int)
    ensures 0 <= r <= 100
    ensures 0 <= value <= 100 ==> r == value
    ensures value < 0 ==> r == 0
    ensures 100 < value ==> r == 100
  {
    if value < 0 then 0 else if 100 < value then 100 else value
  }

  /** How strongly hunger scales the energy drain of Study and DoChores. */
  function HungerModifier(hunger: int): (r: int)
    ensures r == 1 || r == 2
    ensures r == 2 <==> 25 < hunger
  {
    if hunger > 25 then 2 else 1
  }

  /** One hour asleep. */
  function SleepStep(a: Agent, hour: int, d: Draws): (r: Step)
    requires a.state == Sleep && WellFormed(d)
    ensures r.after.hunger == a.hunger + d.bite
    ensures !(hour == 7 && d.chance) ==> r.after.energy == Clamp(a.energy + d.gain)
    ensures hour == 7 && d.chance ==> r.after.energy == Clamp(Clamp(a.energy + d.gain) - 30)
    ensures r.outcome.Said? && r.after.halted == a.halted
    // corollaries of the exact conditions at the end, stated for the reader:
    // the night hours only keep sleeping or, on an air alarm, switch to chores
    ensures 0 <= hour < 7 ==> (r.after.state == DoChores <==> d.chance)
    ensures 0 <= hour < 7 ==> r.after.state == Sleep || r.after.state == DoChores
    // at seven the agent gets up to eat, however hungry it is
    ensures hour == 7 ==> r.after.state == Eat
    ensures !(0 <= hour <= 7) && a.hunger + d.bite > 40 ==> r.after.state == Eat
    ensures r.after.state == Eat <==>
              hour == 7 || (!(0 <= hour < 7) && (a.hunger + d.bite > 40 || hour == 19))
    ensures r.after.state != Rest
    // every next state, with exactly the hours and draws that lead to it
    ensures r.after.state == Sleep <==> 0 <= hour < 7 && !d.chance
    ensures var backToWork := !(0 <= hour <= 7) && a.hunger + d.bite <= 40 && hour != 19;
      (r.after.state == DoChores <==> (0 <= hour < 7 && d.chance) || (backToWork && d.pick == 0)) &&
      (r.after.state == Study <==> backToWork && d.pick == 1)
  {
    var energy := Clamp(a.energy + d.gain);
    var hunger := a.hunger + d.bite;
    var awake := a.(energy := energy, hunger := hunger);
    if 0 <= hour < 7 then
      if d.chance then Step(awake.(state := DoChores), Said(AirAlarm))
      else Step(awake, Said(Snoozing))
    else if hour == 7 then
      if d.chance then Step(awake.(energy := Clamp(energy - 30), state := Eat), Said(FeelHorrible))
      else Step(awake.(state := Eat), Said(RiseAndShine))
    else if hunger > 40 then
      Step(awake.(state := Eat), Said(NapHungry))
    else if hour == 19 then
      Step(awake.(state := Eat), Said(NapSupper))
    else
      Step(awake.(state := if d.pick == 0 then DoChores else Study), Said(NapBackToWork))
  }

  /**
   * One hour eating. Hunger is reset before the supper test reads it, so that test
   * compares 0 with 8 and the supper branch is never taken.
   */
  function EatStep(a: Agent, hour: int, d: Draws): (r: Step)
    requires a.state == Eat && WellFormed(d)
    ensures r.after.hunger == 0 && r.after.energy == a.energy
    ensures r.outcome.Said? && r.outcome.note != Supper && r.after.halted == a.halted
    ensures r.after.state == Study || r.after.state == DoChores || r.after.state == Sleep
    ensures r.after.state == Sleep <==> hour != 8 && a.energy < 10
    ensures r.after.state == Study <==> (hour == 8 || 10 <= a.energy) && d.pick == 0
    ensures r.after.state == DoChores <==> (hour == 8 || 10 <= a.energy) && d.pick == 1
  {
    var hunger := 0;
    var fed := a.(hunger := hunger);
    if hour == 8 then
      Step(fed.(state := if d.pick == 0 then Study else DoChores), Said(Breakfast))
    else if hour == 20 && hunger >= 8 then
      Step(fed.(state := if d.pick == 0 then Rest else Study), Said(Supper))
    else if a.energy < 10 then
      Step(fed.(state := Sleep), Said(TastyButTired))
    else
      Step(fed.(state := if d.pick == 0 then Study else DoChores), Said(Delicious))
  }

  /**
   * One hour resting. The last branch hands the message printer only one argument
   * and raises after energy and hunger were updated; the state stays Rest and
   * Rest's body is closed from then on.
   */
  function RestStep(a: Agent, hour: int, d: Draws): (r: Step)
    requires a.state == Rest && WellFormed(d)
    ensures r.after.hunger == a.hunger + d.bite
    ensures r.after.energy == Clamp(a.energy + d.restGain)
    ensures 0 <= a.energy <= 100 ==> a.energy <= r.after.energy <= a.energy + 5
    // hunger wins over every hour rule
    ensures r.after.state == Eat <==> a.hunger + d.bite > 40
    // hour 1, and hour 19 when somewhat hungry, keep resting
    ensures a.hunger + d.bite <= 40 && (hour == 1 || (hour == 19 && a.hunger + d.bite >= 8)) ==>
              r.after.state == Rest && r.outcome.Said?
    ensures r.after.state == Sleep <==>
              a.hunger + d.bite <= 40 && hour == 0 && r.after.energy <= 50
    // the lucky fallback goes back to work; the others keep resting or raise
    ensures var fallback := a.hunger + d.bite <= 40 && hour != 0 && hour != 1 &&
                            !(hour == 19 && a.hunger + d.bite >= 8);
      (r.after.state == Study <==> fallback && d.chance && d.pick == 0) &&
      (r.after.state == DoChores <==> fallback && d.chance && d.pick == 1) &&
      (r.after.state == Rest <==>
         a.hunger + d.bite <= 40 &&
         ((hour == 0 && 50 < r.after.energy) || hour == 1 || (hour == 19 && a.hunger + d.bite >= 8) ||
          (fallback && !d.chance)))
    ensures r.outcome.Failed? <==>
              a.hunger + d.bite <= 40 && hour != 0 && hour != 1 &&
              !(hour == 19 && a.hunger + d.bite >= 8) && !d.chance
    ensures r.outcome.Failed? ==>
              r.outcome.fault == MissingArgument && r.after.state == Rest && r.after.halted
    ensures r.outcome.Said? ==> r.after.halted == a.halted
  {
    var energy := Clamp(a.energy + d.restGain);
    var hunger := a.hunger + d.bite;
    var resting := a.(energy := energy, hunger := hunger);
    if hunger > 40 then
      Step(resting.(state := Eat), Said(RestHungry))
    else if hour == 0 then
      if energy > 50 then Step(resting, Said(Resting))
      else Step(resting.(state := Sleep), Said(RestTired))
    else if hour == 1 then
      Step(resting, Said(LostTrackOfTime))
    else if hour == 19 && hunger >= 8 then
      Step(resting, Said(RestSupper))
    else if d.chance then
      Step(resting.(state := if d.pick == 0 then Study else DoChores), Said(RestBackToWork))
    else
      Step(resting.(halted := true), Failed(MissingArgument))
  }

  /** One hour studying. */
  function StudyStep(a: Agent, hour: int, d: Draws): (r: Step)
    requires a.state == Study && WellFormed(d)
    ensures r.after.hunger == a.hunger + d.bite
    // the drain is scaled by the hunger from before this hour's increment
    ensures r.after.energy == Clamp(a.energy - d.gain * HungerModifier(a.hunger))
    ensures 0 <= a.energy <= 100 ==> a.energy - 20 <= r.after.energy <= a.energy
    ensures r.outcome.Said? && r.after.halted == a.halted
    // corollaries of the exact conditions at the end, stated for the reader:
    // hunger wins over every hour and energy rule
    ensures a.hunger + d.bite > 40 ==> r.after.state == Eat
    ensures r.after.state != DoChores
    ensures r.after.state == Sleep ==>
              a.hunger + d.bite <= 40 && (hour == 0 || r.after.energy < 10)
    ensures r.after.state == Study || r.after.state == Rest ==>
              hour != 0 && 10 <= r.after.energy && (r.after.state == Study <==> d.chance)
    // every next state, with exactly the hours, energies and draws that lead to it
    ensures var supper := a.hunger + d.bite > 40 || (hour == 19 && a.hunger + d.bite >= 8);
      (r.after.state == Eat <==> supper) &&
      (r.after.state == Sleep <==> !supper && (hour == 0 || r.after.energy < 10)) &&
      (r.after.state == Study <==> !supper && hour != 0 && 10 <= r.after.energy && d.chance) &&
      (r.after.state == Rest <==> !supper && hour != 0 && 10 <= r.after.energy && !d.chance)
  {
    var energy := Clamp(a.energy - d.gain * HungerModifier(a.hunger));
    var hunger := a.hunger + d.bite;
    var tired := a.(energy := energy, hunger := hunger);
    if hunger > 40 then
      Step(tired.(state := Eat), Said(StudyHungry))
    else if hour == 19 && hunger >= 8 then
      Step(tired.(state := Eat), Said(StudySupper))
    else if hour == 0 then
      Step(tired.(state := Sleep), Said(StudyLate))
    else if energy < 10 then
      Step(tired.(state := Sleep), Said(StudyTired))
    else if d.chance then
      Step(tired, Said(StudyFun))
    else
      Step(tired.(state := Rest), Said(StudyToRest))
  }

  /** One hour doing chores (an air-alarm night counts as chores). */
  function ChoresStep(a: Agent, hour: int, d: Draws): (r: Step)
    requires a.state == DoChores && WellFormed(d)
    ensures r.after.hunger == a.hunger + d.bite
    ensures r.after.energy == Clamp(a.energy - d.gain * HungerModifier(a.hunger))
    ensures 0 <= a.energy <= 100 ==> a.energy - 20 <= r.after.energy <= a.energy
    ensures r.outcome.Said? && r.after.halted == a.halted
    // corollaries of the exact conditions at the end, stated for the reader:
    // hunger wins over every hour and energy rule
    ensures a.hunger + d.bite > 40 ==> r.after.state == Eat
    ensures a.hunger + d.bite <= 40 && hour == 7 ==> r.after.state == Eat
    // before seven: back to sleep or the alarm goes on
    ensures a.hunger + d.bite <= 40 && hour < 7 ==>
              (r.after.state == Sleep || r.after.state == DoChores) &&
              (r.after.state == Sleep <==> d.chance)
    ensures r.after.state != Study
    ensures r.after.state == Rest ==> 7 < hour && 10 <= r.after.energy && d.chance
    // every next state, with exactly the hours, energies and draws that lead to it
    ensures var eat := a.hunger + d.bite > 40 || (hour == 19 && a.hunger + d.bite >= 8) || hour == 7;
      (r.after.state == Eat <==> eat) &&
      (r.after.state == Sleep <==>
         !eat && ((hour < 7 && d.chance) || (7 < hour && r.after.energy < 10))) &&
      (r.after.state == Rest <==> !eat && 7 < hour && 10 <= r.after.energy && d.chance) &&
      (r.after.state == DoChores <==>
         !eat && !d.chance && (hour < 7 || 10 <= r.after.energy))
  {
    var energy := Clamp(a.energy - d.gain * HungerModifier(a.hunger));
    var hunger := a.hunger + d.bite;
    var tired := a.(energy := energy, hunger := hunger);
    if hunger > 40 then
      Step(tired.(state := Eat), Said(ChoresHungry))
    else if hour == 19 && hunger >= 8 then
      Step(tired.(state := Eat), Said(ChoresSupper))
    else if hour == 7 then
      Step(tired.(state := Eat), Said(NoTimeToSleep))
    else if hour < 7 then
      if d.chance then Step(tired.(state := Sleep), Said(AlarmOver))
      else Step(tired, Said(AlarmGoesOn))
    else if energy < 10 then
      Step(tired.(state := Sleep), Said(ChoresTired))
    else if d.chance then
      Step(tired.(state := Rest), Said(ChoresFinished))
    else
      Step(tired, Said(StillWorking))
  }

  /**
   * One accepted hour: the current state's body runs, or, when an earlier error
   * closed that body, the hour raises and nothing changes.
   */
  function Transition(a: Agent, hour: int, d: Draws): (r: Step)
    requires WellFormed(d)
    ensures a.halted ==> r == Step(a, Failed(GeneratorExhausted))
    ensures Invariant(a) ==> Invariant(r.after)
    ensures r.after.halted <==> a.halted || r.outcome == Failed(MissingArgument)
    ensures r.outcome == Failed(MissingArgument) ==> a.state == Rest && r.after.state == Rest
    ensures !a.halted && a.state == Eat ==> r.after.hunger == 0
    ensures !a.halted && a.state != Eat ==> r.after.hunger == a.hunger + d.bite
    ensures r.after.state == Rest ==> a.state == Rest || a.state == Study || a.state == DoChores
  {
    if a.halted then Step(a, Failed(GeneratorExhausted))
    else
      match a.state
      case Sleep => SleepStep(a, hour, d)
      case Eat => EatStep(a, hour, d)
      case Study => StudyStep(a, hour, d)
      case DoChores => ChoresStep(a, hour, d)
      case Rest => RestStep(a, hour, d)
  }
}
