# Daily-routine state machine

A verified model of the `FSM` class in `Lab_4_Tarnavskyi.py`. The class simulates one
person's daily routine. It has five states: Sleep, Eat, Study, DoChores and Rest. Each
call to `accept(hour)` runs the current state's body, and that body:

- updates the energy counter, only through a setter that clamps it to [0, 100];
- updates the hunger counter, which grows by a random bite or is reset to 0 by Eat;
- picks the next state through an ordered chain of conditions;
- prints a message, except in Rest's unlucky fallback, which raises before printing.

The project has three modules:

- `RoutineModel` (`routine_model.dfy`) holds the states, the agent's fields, the
  clamp, the hunger modifier, and one transition function per state body. `Transition`
  dispatches on the state tag; the source's generators are not modelled.
- `RoutineMachine` (`routine_fsm.dfy`) holds the class `FSM`. Its fields `energy`,
  `hunger`, `state` and `halted` are updated in place. Apart from the constructor's
  initial value of 100, energy is only written through `SetEnergy`. Each state body
  is a method, proved to produce exactly what the matching transition function
  describes. `Accept` is proved to keep the class
  invariant: energy in [0, 100], hunger non-negative, and halted only in Rest.
- `RoutineRuns` (`routine_runs.dfy`) holds `Run`, which feeds any sequence of hours
  to the machine. Its lemmas hold for whole runs.

Every random value an hour may use is a caller-supplied field of `Draws`:

- `gain`: the result of `randint(5, 10)`;
- `restGain`: the result of `randint(1, 5)`;
- `bite`: the result of `randint(1, 7)`;
- `chance`: whether that hour's `random.random() <= p` test came out true;
- `pick`: the index returned by a two-way `random.choice`.

`WellFormed` requires each field to lie in its range. Each message is a `Note` tag,
one per branch.

Three quirks of the code are kept as written:

- **Eat never takes the supper branch.** Eat resets hunger to 0 before the
  `hour == 20 and hunger >= 8` test, so that test never passes. `EatStep` proves the
  `Supper` note never occurs and Eat never goes to Rest.
- **Rest's hour-19 branch does not change the state.** When hunger after the bite is
  between 8 and 40, Rest stays in Rest. Above 40 the earlier hunger test sends it to Eat.
  Below 8 the hour-19 test fails, and the fallback may go back to work or raise.
- **Rest crashes in its 30% branch.** That branch calls the printer with one
  argument, which raises a `TypeError` after energy and hunger have been updated. The
  model returns `Failed(MissingArgument)`, keeps the state Rest and sets `halted`.
  An exception that escapes a generator closes it, so every later `accept` raises
  `StopIteration` and changes nothing. That outcome is `Failed(GeneratorExhausted)`.
  `CrashIsFinal` and `HaltedRunIsStuck` state the consequence.

`accept` does not check the hour, and every branch is defined for any integer.
The model therefore takes any `int` hour, and DoChores' `hour < 7` branch also covers
negative hours.

## Model

| member | source | states |
|---|---|---|
| RoutineModel.Initial | Lab_4_Tarnavskyi.py:35-38 | a new machine is in Sleep with energy 100 and hunger 0, which satisfies the machine invariant |
| RoutineModel.Clamp | Lab_4_Tarnavskyi.py:49-54 | the stored energy always lies in [0, 100]; it equals the assigned value when that value is in range, otherwise the nearer bound |
| RoutineModel.HungerModifier | Lab_4_Tarnavskyi.py:57-63 | the modifier is 1 or 2, and it is 2 exactly when hunger exceeds 25 |
| RoutineModel.SleepStep | Lab_4_Tarnavskyi.py:73-128 | hunger grows by the bite; energy rises by the draw, clamped, minus a clamped 30 only on an awful wake-up at 7; each next state holds exactly when its branch is taken: Sleep only at hours 0..6 without an air alarm, DoChores on an air alarm or when going back to work with pick 0, Study when going back to work with pick 1 (outside hours 0..7, hunger at most 40, hour not 19), Eat exactly at 7 whatever the hunger, or outside 0..7 when hungry or at 19; never Rest |
| RoutineModel.EatStep | Lab_4_Tarnavskyi.py:131-164 | hunger becomes 0 and energy is unchanged; the supper branch is never taken; the next state is Sleep exactly when the hour is not 8 and energy is below 10, and otherwise Study or DoChores as the pick says; never Rest |
| RoutineModel.RestStep | Lab_4_Tarnavskyi.py:167-215 | energy rises by at most 5, clamped; each next state holds exactly when its branch is taken: Eat when the new hunger exceeds 40, Sleep at hour 0 with energy at most 50, Study or DoChores (by the pick) in the lucky fallback, and Rest at hour 0 with energy above 50, at hour 1, at hour 19 with hunger at least 8, or in the unlucky fallback; the hour raises exactly in the unlucky fallback, leaving the state Rest and the body closed |
| RoutineModel.StudyStep | Lab_4_Tarnavskyi.py:218-262 | energy drops by the draw times the modifier of the hunger before this hour's bite (at most 20), clamped; each next state holds exactly when its branch is taken: Eat when hunger exceeds 40 or at hour 19 with hunger at least 8, otherwise Sleep at hour 0 or with energy below 10, otherwise Study on the lucky draw and Rest on the unlucky one; never DoChores |
| RoutineModel.ChoresStep | Lab_4_Tarnavskyi.py:265-321 | same energy and hunger update as Study; each next state holds exactly when its branch is taken: Eat when hunger exceeds 40, at hour 19 with hunger at least 8, or at hour 7; otherwise before 7 Sleep on the lucky draw and DoChores on the unlucky one; after 7 Sleep with energy below 10, else Rest on the lucky draw and DoChores on the unlucky one; never Study |
| RoutineModel.Transition | Lab_4_Tarnavskyi.py:66-70 | accepting an hour keeps energy in [0, 100], hunger non-negative and a halted machine in Rest; a halted machine raises and changes nothing; Eat leaves hunger 0 and every other body adds the bite; only Rest raises, and Rest is entered only from Rest, Study or DoChores |
| RoutineMachine.FSM.constructor | Lab_4_Tarnavskyi.py:19-38 | the new object is in Sleep with energy 100, hunger 0 and is not halted |
| RoutineMachine.FSM.SetEnergy | Lab_4_Tarnavskyi.py:49-54 | the setter stores the clamped value, always within [0, 100] |
| RoutineMachine.FSM.Accept | Lab_4_Tarnavskyi.py:66-70 | the object's new fields and the outcome are those of Transition on its old fields, and the class invariant is kept |
| RoutineMachine.FSM.SleepHour | Lab_4_Tarnavskyi.py:78-128 | the in-place Sleep body produces exactly SleepStep's agent and message |
| RoutineMachine.FSM.EatHour | Lab_4_Tarnavskyi.py:136-164 | the in-place Eat body produces exactly EatStep's agent and message |
| RoutineMachine.FSM.RestHour | Lab_4_Tarnavskyi.py:172-215 | the in-place Rest body produces exactly RestStep's agent and outcome, including the raising branch |
| RoutineMachine.FSM.StudyHour | Lab_4_Tarnavskyi.py:223-262 | the in-place Study body produces exactly StudyStep's agent and message |
| RoutineMachine.FSM.ChoresHour | Lab_4_Tarnavskyi.py:272-321 | the in-place DoChores body produces exactly ChoresStep's agent and message |
| RoutineRuns.Run | Lab_4_Tarnavskyi.py:338-340 | the machine after the hours are accepted one after another: Transition folded over the hours with each hour's draws, and the empty run leaves the machine as it was |
| RoutineRuns.RunKeepsInvariant | Lab_4_Tarnavskyi.py:66-70 | after any sequence of accepted hours, energy stays in [0, 100], hunger stays non-negative and a halted machine is in Rest |
| RoutineRuns.RunFromStartKeepsInvariant | Lab_4_Tarnavskyi.py:336-340 | every run of a new machine, over any hours and draws, keeps energy in [0, 100] and hunger non-negative |
| RoutineRuns.HaltedRunIsStuck | Lab_4_Tarnavskyi.py:66-70 | once the current body is closed, no sequence of hours changes the machine |
| RoutineRuns.CrashIsFinal | Lab_4_Tarnavskyi.py:213-215 | an hour that raises happens in Rest, and after it the machine stays in Rest with that hour's energy and hunger, whatever is fed next |
| RoutineRuns.MorningRoutine | Lab_4_Tarnavskyi.py:100-148 | a sleeping machine fed hours 7 and 8 has eaten (hunger 0) and is studying or doing chores |

## Left out

- The message text: `cool_print`'s formatting and console output. Each message is
  a `Note` tag for its branch.
- The resting phrase picked from `RESTING_PHRASES`: the choice is flavour and never
  affects the state.
- Probabilities and the random source: each draw is a parameter. Nothing about
  distributions is modelled.
- The generator plumbing: priming with `next`, `send`, and the `hour is None` return.
  `accept` passes on whatever it is given, and a `None` would end the current body;
  no caller passes `None`, because the driver feeds only hours 0..23. A closed body
  is modelled only as the `halted` flag.
- The unused `drowsy` attribute, which Sleep sets on an air alarm and nothing reads.
- `day_simulation`. `Run` feeds any sequence of hours, and it continues past an hour
  that raises, as a caller that catches the exception would. The driver itself
  stops at the first exception; that is not modelled.
