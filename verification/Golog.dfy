/** Vocabulary shared by the components: hooks, actions, and calls of actions with ground arguments. */
module Golog {

  datatype Option<+T> = None | Some(value: T)

  /** In declaration order: finish and fail come before end, start and cancel after it. */
  datatype Hook = FINISH | FAIL | END | START | CANCEL

  function HookRank(h: Hook): nat {
    match h
    case FINISH => 0
    case FAIL => 1
    case END => 2
    case START => 3
    case CANCEL => 4
  }

  function HookName(h: Hook): string {
    match h
    case START => "start"
    case CANCEL => "cancel"
    case FINISH => "finish"
    case FAIL => "fail"
    case END => "end"
  }

  /** Allowed durations of an action, in seconds. */
  datatype DurationRange = DurationRange(min: real, max: real)

  datatype Action = Action(name: string, silent: bool, senses: bool, duration: DurationRange)

  /** An action applied to argument values; it is also the key of the running activity. */
  datatype Call<V> = Call(target: Action, args: seq<V>)

  datatype Transition<V> = Transition(call: Call<V>, hook: Hook)

  lemma Assoc<T>(a: seq<T>, b: seq<T>, c: seq<T>)
    ensures (a + b) + c == a + (b + c)
  {
  }
}
