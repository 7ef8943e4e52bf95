/**
 * The machine object: its fields are updated in place by the state bodies. After the
 * constructor's initial 100, energy is written only through the clamping setter. Every
 * method is proved to do what the matching function of RoutineModel describes.
 */
module RoutineMachine {
  import opened RoutineModel

  class FSM {
    var energy: int
    var hunger: int
    var state: State
    // set once Rest's body has raised: that body is closed and later hours raise too
    var halted: bool

    /** The fields as a value of the model. */
    function View(): Agent
      reads this
    {
      Agent(energy, hunger, state, halted)
    }

    ghost predicate Valid()
      reads this
    {
      Invariant(View())
    }

    /** A new machine: asleep, fully rested, not hungry. */
    constructor ()
      ensures Valid()
      ensures View() == Initial()
    {
      state := Sleep;
      energy := 100;
      hunger := 0;
      halted := false;
    }

    /** The energy setter: stores value clamped into [0, 100]. */
    method SetEnergy(value: int)
      modifies this`energy
      ensures 0 <= energy <= 100
      ensures energy == Clamp(value)
    {
      energy := if value > 100 then 100 else if value < 0 then 0 else value;
    }

    /** Runs the current state's body on one hour. */
    method Accept(hour: int, d: Draws) returns (outcome: Outcome)
      requires Valid() && WellFormed(d)
      modifies this
      ensures Valid()
      ensures Step(View(), outcome) == Transition(old(View()), hour, d)
    {
      if halted {
        outcome := Failed(GeneratorExhausted);
        return;
      }
      match state
      case Sleep => outcome := SleepHour(hour, d);
      case Eat => outcome := EatHour(hour, d);
      case Study => outcome := StudyHour(hour, d);
      case DoChores => outcome := ChoresHour(hour, d);
      case Rest => outcome := RestHour(hour, d);
    }

    method SleepHour(hour: int, d: Draws) returns (outcome: Outcome)
      requires state == Sleep && WellFormed(d)
      modifies this
      ensures Step(View(), outcome) == SleepStep(old(View()), hour, d)
    {
      SetEnergy(energy + d.gain);
      hunger := hunger + d.bite;
      if 0 <= hour < 7 {
        if d.chance {
          outcome := Said(AirAlarm);
          state := DoChores;
        } else {
          outcome := Said(Snoozing);
        }
      } else if hour == 7 {
        if d.chance {
          outcome := Said(FeelHorrible);
          SetEnergy(energy - 30);
        } else {
          outcome := Said(RiseAndShine);
        }
        state := Eat;
      } else if hunger > 40 {
        outcome := Said(NapHungry);
        state := Eat;
      } else if hour == 19 {
        outcome := Said(NapSupper);
        state := Eat;
      } else {
        outcome := Said(NapBackToWork);
        state := if d.pick == 0 then DoChores else Study;
      }
    }

    method EatHour(hour: int, d: Draws) returns (outcome: Outcome)
      requires state == Eat && WellFormed(d)
      modifies this
      ensures Step(View(), outcome) == EatStep(old(View()), hour, d)
    {
      hunger := 0;
      var next: State;
      if hour == 8 {
        outcome := Said(Breakfast);
        next := if d.pick == 0 then Study else DoChores;
      } else if hour == 20 && hunger >= 8 {
        outcome := Said(Supper);
        next := if d.pick == 0 then Rest else Study;
      } else if energy < 10 {
        outcome := Said(TastyButTired);
        next := Sleep;
      } else {
        outcome := Said(Delicious);
        next := if d.pick == 0 then Study else DoChores;
      }
      state := next;
    }

    method RestHour(hour: int, d: Draws) returns (outcome: Outcome)
      requires state == Rest && WellFormed(d)
      modifies this
      ensures Step(View(), outcome) == RestStep(old(View()), hour, d)
    {
      SetEnergy(energy + d.restGain);
      hunger := hunger + d.bite;
      if hunger > 40 {
        outcome := Said(RestHungry);
        state := Eat;
      } else if hour == 0 {
        if energy > 50 {
          outcome := Said(Resting);
        } else {
          outcome := Said(RestTired);
          state := Sleep;
        }
      } else if hour == 1 {
        outcome := Said(LostTrackOfTime);
      } else if hour == 19 && hunger >= 8 {
        outcome := Said(RestSupper);
      } else {
        if d.chance {
          outcome := Said(RestBackToWork);
          state := if d.pick == 0 then Study else DoChores;
        } else {
          // the printer is called without its hour argument and raises
          outcome := Failed(MissingArgument);
          halted := true;
        }
      }
    }

    method StudyHour(hour: int, d: Draws) returns (outcome: Outcome)
      requires state == Study && WellFormed(d)
      modifies this
      ensures Step(View(), outcome) == StudyStep(old(View()), hour, d)
    {
      SetEnergy(energy - d.gain * HungerModifier(hunger));
      hunger := hunger + d.bite;
      if hunger > 40 {
        outcome := Said(StudyHungry);
        state := Eat;
      } else if hour == 19 && hunger >= 8 {
        outcome := Said(StudySupper);
        state := Eat;
      } else if hour == 0 {
        outcome := Said(StudyLate);
        state := Sleep;
      } else if energy < 10 {
        outcome := Said(StudyTired);
        state := Sleep;
      } else {
        if d.chance {
          outcome := Said(StudyFun);
        } else {
          outcome := Said(StudyToRest);
          state := Rest;
        }
      }
    }

    method ChoresHour(hour: int, d: Draws) returns (outcome: Outcome)
      requires state == DoChores && WellFormed(d)
      modifies this
      ensures Step(View(), outcome) == ChoresStep(old(View()), hour, d)
    {
      SetEnergy(energy - d.gain * HungerModifier(hunger));
      hunger := hunger + d.bite;
      if hunger > 40 {
        outcome := Said(ChoresHungry);
        state := Eat;
      } else if hour == 19 && hunger >= 8 {
        outcome := Said(ChoresSupper);
        state := Eat;
      } else if hour == 7 {
        outcome := Said(NoTimeToSleep);
        state := Eat;
      } else if hour < 7 {
        if d.chance {
          outcome := Said(AlarmOver);
          state := Sleep;
        } else {
          outcome := Said(AlarmGoesOn);
        }
      } else if energy < 10 {
        outcome := Said(ChoresTired);
        state := Sleep;
      } else {
        if d.chance {
          outcome := Said(ChoresFinished);
          state := Rest;
        } else {
          outcome := Said(StillWorking);
        }
      }
    }
  }
}
