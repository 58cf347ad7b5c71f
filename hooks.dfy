/**
 * Site hooks: `Engine.load_hooks` takes the `hooks` mapping of an optional
 * `__hooks__` module, and `Engine.run_hook` calls every function registered
 * for a stage with the options and the stage's arguments.
 */
module Hooks {
  import opened Wrappers
  import opened Pages

  /** A hook function, known by its name. */
  type Hook = string

  /** `__hooks__.hooks`: the functions registered for each stage, in order. */
  type HookTable = map<string, seq<Hook>>

  /** The extra arguments a stage passes after the options. */
  datatype HookArg = NoArg | PathArg(path: string) | PagesArg(pages: seq<Page>)

  /** What a hook function returns: `None` or a list of pages. */
  type HookResult = Option<seq<Page>>

  /** Calling a hook function; the functions themselves are outside the model. */
  type Caller = (Hook, Options, HookArg) -> HookResult

  /** How `import __hooks__` ended. */
  datatype HookModule =
    | Imported(hooks: HookTable)
    | NoHooksModule              // the ImportError names `__hooks__`
    | FailedInside(message: string)  // an ImportError raised while importing a hook

  /** `hooks.get(stage, [])`. */
  function Funcs(hooks: HookTable, stage: string): seq<Hook> {
    if stage in hooks then hooks[stage] else []
  }

  /** `[hook(options, *args) for hook in funcs]`. */
  function CallAll(funcs: seq<Hook>, call: Caller, options: Options, arg: HookArg): (r: seq<HookResult>)
    ensures |r| == |funcs|
    ensures forall i :: 0 <= i < |r| ==> r[i] == call(funcs[i], options, arg)
  {
    if funcs == [] then [] else [call(funcs[0], options, arg)] + CallAll(funcs[1..], call, options, arg)
  }

  /** `run_hook(stage, *args)` on a loaded hook table. */
  function RunHook(hooks: HookTable, call: Caller, options: Options, stage: string, arg: HookArg): seq<HookResult> {
    CallAll(Funcs(hooks, stage), call, options, arg)
  }

  /** A stage nobody registered for calls nothing and returns no results. */
  lemma UnregisteredStage(hooks: HookTable, call: Caller, options: Options, stage: string, arg: HookArg)
    requires stage !in hooks
    ensures RunHook(hooks, call, options, stage, arg) == []
  {
  }

  /** The functions of a stage are called once each, in registration order. */
  lemma {:induction false} CallsInOrder(funcs: seq<Hook>, more: seq<Hook>, call: Caller, options: Options, arg: HookArg)
    ensures CallAll(funcs + more, call, options, arg) == CallAll(funcs, call, options, arg) + CallAll(more, call, options, arg)
  {
    if funcs != [] {
      assert (funcs + more)[1..] == funcs[1..] + more;
      CallsInOrder(funcs[1..], more, call, options, arg);
    } else {
      assert funcs + more == more;
    }
  }

  // ---------------------------------------------------------------------
  // load_hooks, as written and corrected
  // ---------------------------------------------------------------------

  /**
   * `load_hooks` as written: `self.hooks` is assigned only when the module
   * imports, and otherwise stays unset (`None` here).
   */
  function LoadHooksAsWritten(m: HookModule): Result<Option<HookTable>, string> {
    match m
    case Imported(h) => Ok(Some(h))
    case NoHooksModule => Ok(None)
    case FailedInside(msg) => Err(msg)
  }

  /** `run_hook` as written: reading an unset `self.hooks` raises. */
  function RunHookAsWritten(hooks: Option<HookTable>, call: Caller, options: Options, stage: string, arg: HookArg)
    : Result<seq<HookResult>, string>
  {
    match hooks
    case None => Err("AttributeError: 'Engine' object has no attribute 'hooks'")
    case Some(h) => Ok(RunHook(h, call, options, stage, arg))
  }

  /**
   * As written, a site without a hooks module fails at the first stage
   * (`site.start`), although `load_hooks` treats the missing module as normal.
   */
  lemma NoHooksModuleFailsAsWritten(call: Caller, options: Options)
    ensures LoadHooksAsWritten(NoHooksModule).Ok?
    ensures RunHookAsWritten(LoadHooksAsWritten(NoHooksModule).value, call, options, "site.start", NoArg).Err?
  {
  }

  /** `load_hooks` as intended: a missing module means no hooks at all. */
  function LoadHooks(m: HookModule): (r: Result<HookTable, string>)
    ensures m.NoHooksModule? ==> r == Ok(map[])
    ensures m.FailedInside? <==> r.Err?
  {
    match m
    case Imported(h) => Ok(h)
    case NoHooksModule => Ok(map[])
    case FailedInside(msg) => Err(msg)
  }

  /** Without a hooks module every stage runs nothing. */
  lemma NoHooksModuleRunsNothing(call: Caller, options: Options, stage: string, arg: HookArg)
    ensures LoadHooks(NoHooksModule).Ok?
    ensures RunHook(LoadHooks(NoHooksModule).value, call, options, stage, arg) == []
  {
  }

  /** Where the source works, the corrected version behaves exactly as it does. */
  lemma CorrectedAgrees(m: HookModule, call: Caller, options: Options, stage: string, arg: HookArg)
    requires !m.NoHooksModule?
    ensures LoadHooks(m).Ok? <==> LoadHooksAsWritten(m).Ok?
    ensures LoadHooks(m).Ok? ==>
              RunHookAsWritten(LoadHooksAsWritten(m).value, call, options, stage, arg)
                == Ok(RunHook(LoadHooks(m).value, call, options, stage, arg))
  {
  }
}
