/** Key bindings, the actions they run, and the global stack of signals
    those actions push for the backend to consume. */
module Signals {
  import opened MachineInt
  import opened Errors

  datatype Dir = Up | Down

  /** The requests a key binding can make of the backend. */
  datatype Signal =
    | Quit
    | KillClient
    | ToggleFloating
    | SetLayout(layoutIndex: nat)
    | ChangeWorkspace(newWorkspace: nat)
    | MoveToWorkspace(targetWorkspace: nat)
    | FocusMon(monitorDir: Dir)
    | FocusStack(stackDir: Dir)

  /** SIGNAL_STACK: a vector whose top is its last element. */
  type SignalStack = seq<Signal>

  /** The argument a key binding passes to its function. The float is kept
      as its bit pattern: nothing reads it. */
  datatype Argument =
    | Void
    | Int(intValue: int)
    | UInt(uintValue: nat)
    | Float(floatBits: nat)
    | Str(text: string)
    | SignalArg(signal: Signal)

  /** `util::signal`: a signal argument is pushed on top of the stack; any
      other argument leaves the stack alone. */
  function Push(stack: SignalStack, arg: Argument): (r: SignalStack)
    ensures arg.SignalArg? ==> |r| == |stack| + 1 && r[|stack|] == arg.signal && r[..|stack|] == stack
    ensures !arg.SignalArg? ==> r == stack
  {
    if arg.SignalArg? then stack + [arg.signal] else stack
  }

  /** `SIGNAL_STACK.pop()`: the most recent signal and the stack below it,
      or nothing from an empty stack. */
  function Pop(stack: SignalStack): (r: (Option<Signal>, SignalStack))
    ensures |stack| == 0 <==> r.0.None?
    ensures r.0.None? ==> r.1 == stack
    ensures r.0.Some? ==> r.1 + [r.0.value] == stack
  {
    if |stack| == 0 then (None, stack)
    else (Some(stack[|stack| - 1]), stack[..|stack| - 1])
  }

  /** A pop returns exactly what the last push pushed, and the stack from
      before that push. */
  lemma PopAfterPush(stack: SignalStack, s: Signal)
    ensures Pop(Push(stack, SignalArg(s))) == (Some(s), stack)
  {
    var pushed := Push(stack, SignalArg(s));
    assert pushed[..|stack|] == stack;
  }

  /** Last in, first out: two pushes come back in reverse order. */
  lemma {:induction false} TwoPushesPopReversed(stack: SignalStack, first: Signal, second: Signal)
    ensures var once := Pop(Push(Push(stack, SignalArg(first)), SignalArg(second)));
      once.0 == Some(second) && Pop(once.1) == (Some(first), stack)
  {
    var one := Push(stack, SignalArg(first));
    PopAfterPush(one, second);
    PopAfterPush(stack, first);
  }

  /** `Key`: a modifier mask and a keysym, compared field by field. */
  datatype Key = Key(modifier: U32, sym: nat)

  function NewKey(modifier: U32, sym: nat): (k: Key)
    ensures k.modifier == modifier && k.sym == sym
  {
    Key(modifier, sym)
  }

  /** Two keys are equal exactly when modifier and keysym both are. */
  lemma KeyEquality(a: Key, b: Key)
    ensures a == b <==> a.modifier == b.modifier && a.sym == b.sym
  {
  }

  /** The three functions key bindings are built from. */
  datatype ActionFn = SpawnFn | SignalFn | QuitFn

  datatype Action = Action(fn: ActionFn, argument: Argument)

  /** What running an action asks of the operating system. */
  datatype ProcessRequest = NoProcessRequest | SpawnProgram(program: string) | ExitProcess

  /** `Action::run`: the stored function applied to a copy of the stored
      argument. `spawn` starts a program named by a string argument, `signal`
      pushes, `quit` exits; the action itself is a value and is not changed. */
  function Run(action: Action, stack: SignalStack): (r: (SignalStack, ProcessRequest))
    ensures action.fn.SignalFn? ==> r == (Push(stack, action.argument), NoProcessRequest)
    ensures action.fn.SpawnFn? ==> r.0 == stack
    ensures action.fn.SpawnFn? ==> (r.1.SpawnProgram? <==> action.argument.Str?)
    ensures action.fn.SpawnFn? && action.argument.Str? ==> r.1 == SpawnProgram(action.argument.text)
    ensures action.fn.QuitFn? ==> r == (stack, ExitProcess)
  {
    match action.fn
    case SpawnFn =>
      if action.argument.Str? then (stack, SpawnProgram(action.argument.text)) else (stack, NoProcessRequest)
    case SignalFn => (Push(stack, action.argument), NoProcessRequest)
    case QuitFn => (stack, ExitProcess)
  }

  /** A key bound to `signal` with a signal argument hands that signal to the
      next `handle_signal`. */
  lemma RunSignalThenPop(s: Signal, stack: SignalStack)
    ensures Pop(Run(Action(SignalFn, SignalArg(s)), stack).0) == (Some(s), stack)
  {
    PopAfterPush(stack, s);
  }
}
