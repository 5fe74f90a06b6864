/**
 * The client's structured action engine (action.rs): the `CommandSpec`
 * wire format tagged by "type", the poll that keeps the valid commands in
 * the order received, the root gate, the success flag, and the action
 * loop. Unix build; the HTTP calls, the effective uid and the engine that
 * runs a command are inputs.
 */
module ClientAction {
  import opened Wrappers
  import opened Seqs
  import opened J = Json

  const U64Limit: int := 0x1_0000_0000_0000_0000

  datatype CommandSpec =
    | Shell(command: string, timeoutSecs: Option<nat>)
    | Script(name: string, args: Option<seq<string>>, timeoutSecs: Option<nat>)

  datatype ServerCommand = ServerCommand(id: string, spec: CommandSpec, createdAt: Option<string>, runAsRoot: Option<bool>)

  /** Every number in the command fits the `u64` it is declared as. */
  predicate FitsU64(c: ServerCommand) {
    var t := c.spec.timeoutSecs;
    t.None? || t.value < U64Limit
  }

  // ----- serde's encoding: absent fields and null both read as None -----

  /** An `Option<T>` field: Some(None) for absent or null, Some(Some(x)) for a good value, None for a bad one. */
  function OptU64(v: J.Value, key: string): (r: Option<Option<nat>>)
    ensures r.Some? && r.value.Some? ==> r.value.value < U64Limit
  {
    match J.Get(v, key)
    case None => Some(None)
    case Some(Null) => Some(None)
    case Some(Num(n)) => if 0 <= n < U64Limit then Some(Some(n)) else None
    case Some(_) => None
  }

  function OptBool(v: J.Value, key: string): Option<Option<bool>> {
    match J.Get(v, key)
    case None => Some(None)
    case Some(Null) => Some(None)
    case Some(Bool(b)) => Some(Some(b))
    case Some(_) => None
  }

  function OptStr(v: J.Value, key: string): Option<Option<string>> {
    match J.Get(v, key)
    case None => Some(None)
    case Some(Null) => Some(None)
    case Some(Str(s)) => Some(Some(s))
    case Some(_) => None
  }

  function Strings(items: seq<J.Value>): (r: Option<seq<string>>)
    ensures r.Some? ==> |r.value| == |items| && forall i :: 0 <= i < |items| ==> items[i] == J.Str(r.value[i])
  {
    if items == [] then Some([])
    else if !items[|items| - 1].Str? then None
    else match Strings(items[..|items| - 1])
      case None => None
      case Some(init) => Some(init + [items[|items| - 1].s])
  }

  function OptStrList(v: J.Value, key: string): Option<Option<seq<string>>> {
    match J.Get(v, key)
    case None => Some(None)
    case Some(Null) => Some(None)
    case Some(Arr(items)) => (match Strings(items) case None => None case Some(ss) => Some(Some(ss)))
    case Some(_) => None
  }

  /** The internally tagged `CommandSpec`: "type" picks the variant, unknown members are ignored. */
  function DecodeSpec(v: J.Value): (r: Option<CommandSpec>)
    ensures J.GetStr(v, "type") != Some("shell") && J.GetStr(v, "type") != Some("script") ==> r.None?
    ensures r.Some? && r.value.Shell? ==> J.GetStr(v, "type") == Some("shell") && J.GetStr(v, "command") == Some(r.value.command)
    ensures r.Some? && r.value.Script? ==> J.GetStr(v, "type") == Some("script") && J.GetStr(v, "name") == Some(r.value.name)
  {
    match J.GetStr(v, "type")
    case Some("shell") =>
      (match (J.GetStr(v, "command"), OptU64(v, "timeout_secs"))
       case (Some(c), Some(t)) => Some(Shell(c, t))
       case _ => None)
    case Some("script") =>
      (match (J.GetStr(v, "name"), OptStrList(v, "args"), OptU64(v, "timeout_secs"))
       case (Some(n), Some(a), Some(t)) => Some(Script(n, a, t))
       case _ => None)
    case _ => None
  }

  /** An `Option<T>` element of a sequence: null reads as None, a value of the wrong type is refused. */
  function OptStrItem(x: J.Value): Option<Option<string>> {
    match x
    case Null => Some(None)
    case Str(s) => Some(Some(s))
    case _ => None
  }

  function OptBoolItem(x: J.Value): Option<Option<bool>> {
    match x
    case Null => Some(None)
    case Bool(b) => Some(Some(b))
    case _ => None
  }

  /**
   * `serde_json::from_value::<ServerCommand>`. The derived deserialiser
   * takes a struct as an object (absent or null optional members read as
   * None) or as an array holding exactly the four fields in declaration
   * order.
   */
  function DecodeCommand(v: J.Value): (r: Option<ServerCommand>)
    ensures r.Some? ==> FitsU64(r.value)
    ensures !v.Obj? && !v.Arr? ==> r.None?
    ensures v.Arr? && |v.items| != 4 ==> r.None?
    ensures v.Arr? && |v.items| == 4 ==>
      (r.Some? <==> v.items[0].Str? && DecodeSpec(v.items[1]).Some? && OptStrItem(v.items[2]).Some? && OptBoolItem(v.items[3]).Some?)
    ensures v.Arr? && r.Some? ==>
      v.items[0] == J.Str(r.value.id) && DecodeSpec(v.items[1]) == Some(r.value.spec)
      && OptStrItem(v.items[2]) == Some(r.value.createdAt) && OptBoolItem(v.items[3]) == Some(r.value.runAsRoot)
    ensures v.Obj? ==>
      (r.Some? <==> J.GetStr(v, "id").Some? && J.Get(v, "spec").Some? && DecodeSpec(J.Get(v, "spec").value).Some?
                    && OptStr(v, "created_at").Some? && OptBool(v, "run_as_root").Some?)
    ensures v.Obj? && r.Some? ==>
      J.GetStr(v, "id") == Some(r.value.id) && DecodeSpec(J.Get(v, "spec").value) == Some(r.value.spec)
      && OptStr(v, "created_at") == Some(r.value.createdAt) && OptBool(v, "run_as_root") == Some(r.value.runAsRoot)
  {
    match v
    case Arr(items) =>
      if |items| != 4 then None
      else
        (match (items[0], DecodeSpec(items[1]), OptStrItem(items[2]), OptBoolItem(items[3]))
         case (Str(id), Some(spec), Some(created), Some(root)) => Some(ServerCommand(id, spec, created, root))
         case _ => None)
    case _ =>
      match (J.GetStr(v, "id"), J.Get(v, "spec"), OptStr(v, "created_at"), OptBool(v, "run_as_root"))
      case (Some(id), Some(s), Some(created), Some(root)) =>
        (match DecodeSpec(s) case None => None case Some(spec) => Some(ServerCommand(id, spec, created, root)))
      case _ => None
  }

  /** The array form of a command reads back field by field, in declaration order. */
  lemma DecodeArrayForm(c: ServerCommand)
    requires FitsU64(c)
    ensures DecodeCommand(J.Arr([J.Str(c.id), EncodeSpec(c.spec), OrNull(c.createdAt, (s: string) => J.Str(s)),
                                 OrNull(c.runAsRoot, (b: bool) => J.Bool(b))])) == Some(c)
  {
    DecodeEncodeSpec(c.spec);
    var created := OrNull(c.createdAt, (s: string) => J.Str(s));
    var root := OrNull(c.runAsRoot, (b: bool) => J.Bool(b));
    assert OptStrItem(created) == Some(c.createdAt);
    assert OptBoolItem(root) == Some(c.runAsRoot);
  }

  function OrNull<T>(o: Option<T>, f: T -> J.Value): J.Value {
    match o case None => J.Null case Some(x) => f(x)
  }

  function EncodeSpec(s: CommandSpec): J.Value {
    match s
    case Shell(c, t) => J.Obj(map["type" := J.Str("shell"), "command" := J.Str(c), "timeout_secs" := OrNull(t, (n: nat) => J.Num(n))])
    case Script(n, a, t) => J.Obj(map["type" := J.Str("script"), "name" := J.Str(n),
                                      "args" := OrNull(a, (ss: seq<string>) => J.Arr(seq(|ss|, i requires 0 <= i < |ss| => J.Str(ss[i])))),
                                      "timeout_secs" := OrNull(t, (n: nat) => J.Num(n))])
  }

  /** The JSON the server sends for a command (the serialising half of the derive). */
  function EncodeCommand(c: ServerCommand): (v: J.Value)
    ensures v.Obj? && v.fields.Keys == {"id", "spec", "created_at", "run_as_root"}
    ensures J.GetStr(v, "id") == Some(c.id)
  {
    J.Obj(map["id" := J.Str(c.id), "spec" := EncodeSpec(c.spec),
              "created_at" := OrNull(c.createdAt, (s: string) => J.Str(s)),
              "run_as_root" := OrNull(c.runAsRoot, (b: bool) => J.Bool(b))])
  }

  lemma {:induction false} StringsOfEncoded(ss: seq<string>)
    ensures Strings(seq(|ss|, i requires 0 <= i < |ss| => J.Str(ss[i]))) == Some(ss)
    decreases |ss|
  {
    if ss != [] {
      var items := seq(|ss|, i requires 0 <= i < |ss| => J.Str(ss[i]));
      var init := ss[..|ss| - 1];
      assert items[..|items| - 1] == seq(|init|, i requires 0 <= i < |init| => J.Str(init[i]));
      StringsOfEncoded(init);
      assert init + [ss[|ss| - 1]] == ss;
    }
  }

  /** Decoding what the server encodes gives the command back, whichever variant "type" names. */
  lemma DecodeEncode(c: ServerCommand)
    requires FitsU64(c)
    ensures DecodeCommand(EncodeCommand(c)) == Some(c)
  {
    EncodedFields(c);
    DecodeEncodeSpec(c.spec);
  }

  /** Each member of the encoded command reads back as the field it came from. */
  lemma EncodedFields(c: ServerCommand)
    ensures J.GetStr(EncodeCommand(c), "id") == Some(c.id)
    ensures J.Get(EncodeCommand(c), "spec") == Some(EncodeSpec(c.spec))
    ensures OptStr(EncodeCommand(c), "created_at") == Some(c.createdAt)
    ensures OptBool(EncodeCommand(c), "run_as_root") == Some(c.runAsRoot)
  {
    var v := EncodeCommand(c);
    assert v.fields["id"] == J.Str(c.id);
    assert v.fields["spec"] == EncodeSpec(c.spec);
  }

  lemma DecodeEncodeSpec(spec: CommandSpec)
    requires spec.timeoutSecs.None? || spec.timeoutSecs.value < U64Limit
    ensures DecodeSpec(EncodeSpec(spec)) == Some(spec)
  {
    match spec
    case Shell(cmd, t) => DecodeEncodeShell(cmd, t);
    case Script(n, a, t) => DecodeEncodeScript(n, a, t);
  }

  lemma DecodeEncodeShell(cmd: string, t: Option<nat>)
    requires t.None? || t.value < U64Limit
    ensures DecodeSpec(EncodeSpec(Shell(cmd, t))) == Some(Shell(cmd, t))
  {
    var v := EncodeSpec(Shell(cmd, t));
    assert OptU64(v, "timeout_secs") == Some(t);
    assert J.GetStr(v, "type") == Some("shell");
    assert J.GetStr(v, "command") == Some(cmd);
  }

  lemma DecodeEncodeScript(n: string, a: Option<seq<string>>, t: Option<nat>)
    requires t.None? || t.value < U64Limit
    ensures DecodeSpec(EncodeSpec(Script(n, a, t))) == Some(Script(n, a, t))
  {
    var v := EncodeSpec(Script(n, a, t));
    assert OptU64(v, "timeout_secs") == Some(t);
    assert J.GetStr(v, "type") == Some("script");
    assert J.GetStr(v, "name") == Some(n);
    if a.Some? {
      StringsOfEncoded(a.value);
    }
    assert OptStrList(v, "args") == Some(a);
  }

  /** A spec whose "type" is neither "shell" nor "script" is refused. */
  lemma UnknownTypeRefused(fields: map<string, J.Value>, t: string)
    requires t != "shell" && t != "script"
    ensures DecodeSpec(J.Obj(fields["type" := J.Str(t)])).None?
  {
  }

  // ----- polling -----

  /** The valid commands of a batch, in the order received. */
  function ValidCommands(raws: seq<J.Value>): (r: seq<ServerCommand>)
    ensures |r| <= |raws|
    ensures forall c :: c in r ==> FitsU64(c)
    decreases |raws|
  {
    if raws == [] then []
    else
      var init := ValidCommands(raws[..|raws| - 1]);
      match DecodeCommand(raws[|raws| - 1])
      case None => init
      case Some(c) => init + [c]
  }

  /** Filtering is compositional, so the order of the batch is kept. */
  lemma {:induction false} ValidCommandsAppend(a: seq<J.Value>, b: seq<J.Value>)
    ensures ValidCommands(a + b) == ValidCommands(a) + ValidCommands(b)
    decreases |b|
  {
    if b == [] {
      assert a + b == a;
    } else {
      var b' := b[..|b| - 1];
      SnocOfAppend(a, b);
      ValidCommandsAppend(a, b');
      match DecodeCommand(b[|b| - 1])
      case None =>
      case Some(c) => AppendAssoc(ValidCommands(a), ValidCommands(b'), [c]);
    }
  }

  /** Every kept command decodes from some received entry. */
  lemma {:induction false} ValidCommandsFrom(raws: seq<J.Value>)
    ensures forall c :: c in ValidCommands(raws) ==> exists r :: r in raws && DecodeCommand(r) == Some(c)
    decreases |raws|
  {
    if raws != [] {
      var init := raws[..|raws| - 1];
      var last := raws[|raws| - 1];
      ValidCommandsFrom(init);
      forall c | c in ValidCommands(raws)
        ensures exists r :: r in raws && DecodeCommand(r) == Some(c)
      {
        if c in ValidCommands(init) {
          var r :| r in init && DecodeCommand(r) == Some(c);
          assert r in raws;
        } else {
          assert DecodeCommand(last) == Some(c);
          assert last in raws;
        }
      }
    }
  }

  /** A batch with no invalid entry is kept whole, entry by entry. */
  lemma {:induction false} AllValidKeptWhole(raws: seq<J.Value>)
    requires forall i :: 0 <= i < |raws| ==> DecodeCommand(raws[i]).Some?
    ensures |ValidCommands(raws)| == |raws|
    ensures forall i :: 0 <= i < |raws| ==> ValidCommands(raws)[i] == DecodeCommand(raws[i]).value
    decreases |raws|
  {
    if raws != [] {
      var init := raws[..|raws| - 1];
      AllValidKeptWhole(init);
      assert ValidCommands(raws) == ValidCommands(init) + [DecodeCommand(raws[|raws| - 1]).value];
    }
  }

  /** One poll's HTTP exchange: the request failed, or a status with the body (None when it is not a JSON array). */
  datatype Poll = SendFailed(err: string) | Response(success: bool, body: Option<seq<J.Value>>)

  /**
   * `poll_for_commands_once`: a non-success status gives no commands; a
   * body that is not a JSON array is an error; otherwise the entries that
   * decode are kept, in order, and the others dropped.
   */
  method PollForCommandsOnce(p: Poll) returns (r: Result<seq<ServerCommand>, string>)
    ensures p.SendFailed? ==> r == Err(p.err)
    ensures p.Response? && !p.success ==> r == Ok([])
    ensures p.Response? && p.success && p.body.None? ==> r.Err?
    ensures p.Response? && p.success && p.body.Some? ==> r == Ok(ValidCommands(p.body.value))
  {
    if p.SendFailed? {
      return Err(p.err);
    }
    if !p.success {
      return Ok([]);
    }
    if p.body.None? {
      return Err("invalid command list");
    }
    var cmds := p.body.value;
    var out: seq<ServerCommand> := [];
    var i := 0;
    while i < |cmds|
      invariant i <= |cmds|
      invariant out == ValidCommands(cmds[..i])
    {
      assert cmds[..i + 1][..i] == cmds[..i];
      match DecodeCommand(cmds[i]) {
        case Some(c) => out := out + [c];
        case None =>
      }
      i := i + 1;
    }
    assert cmds[..i] == cmds;
    r := Ok(out);
  }

  // ----- running one command -----

  /** `check_root` on Unix: it fails exactly when root is required and the effective uid is not 0. */
  function CheckRoot(required: bool, euid: nat): (r: Result<(), string>)
    ensures r.Err? <==> required && euid != 0
  {
    if required && euid != 0 then Err("action requires root privileges but none present") else Ok(())
  }

  /** What the engine reports for a run. */
  datatype ExecutionResult = ExecutionResult(id: string, exitCode: int, stdout: string, stderr: string)

  datatype CommandResult = CommandResult(id: string, exitCode: int, stdout: string, stderr: string, success: bool)

  /** `execute_action`: whether the engine was called, and the result posted back, if any. */
  datatype ActionOutcome = ActionOutcome(executed: bool, posted: Option<CommandResult>)

  /**
   * `execute_action`: a command needing root while the uid is not 0 is
   * skipped; otherwise the engine runs it and, when it succeeds, the result
   * is posted with `success` exactly when the exit code is 0.
   */
  function ExecuteAction(cmd: ServerCommand, euid: nat, engine: Result<ExecutionResult, string>): (o: ActionOutcome)
    ensures !o.executed <==> cmd.runAsRoot == Some(true) && euid != 0
    ensures !o.executed ==> o.posted.None?
    ensures o.posted.Some? <==> o.executed && engine.Ok?
    ensures o.posted.Some? ==> (o.posted.value.success <==> engine.value.exitCode == 0)
    ensures o.posted.Some? ==> o.posted.value.id == engine.value.id && o.posted.value.exitCode == engine.value.exitCode
  {
    if cmd.runAsRoot.Some? && CheckRoot(cmd.runAsRoot.value, euid).Err? then ActionOutcome(false, None)
    else
      match engine
      case Err(_) => ActionOutcome(true, None)
      case Ok(e) => ActionOutcome(true, Some(CommandResult(e.id, e.exitCode, e.stdout, e.stderr, e.exitCode == 0)))
  }

  /** Root is never asked of a root process, and a command that does not ask for it is never skipped. */
  lemma RootGate(cmd: ServerCommand, engine: Result<ExecutionResult, string>, euid: nat)
    ensures ExecuteAction(cmd, 0, engine).executed
    ensures cmd.runAsRoot != Some(true) ==> ExecuteAction(cmd, euid, engine).executed
  {
  }

  // ----- the loop -----

  /** The commands spawned by a run of polls that all succeeded, in order. */
  function Spawned(polls: seq<Result<seq<ServerCommand>, string>>): seq<ServerCommand>
    decreases |polls|
  {
    if polls == [] then []
    else
      var last := polls[|polls| - 1];
      Spawned(polls[..|polls| - 1]) + (if last.Ok? then last.value else [])
  }

  /**
   * `action_loop` against the successive poll results and the running
   * flag's value before each poll (no flag means run on): a cleared flag
   * stops the loop with success, a failed poll ends it with that error,
   * and every command of every successful poll is spawned, in order.
   */
  method ActionLoop(polls: seq<Result<seq<ServerCommand>, string>>, hasFlag: bool, flag: seq<bool>)
    returns (spawned: seq<ServerCommand>, done: nat, r: Result<(), string>)
    requires |flag| == |polls|
    ensures done <= |polls|
    ensures spawned == Spawned(polls[..done])
    ensures forall k :: 0 <= k < done ==> polls[k].Ok?
    ensures hasFlag ==> forall k :: 0 <= k < done ==> flag[k]
    ensures r.Err? ==> done < |polls| && polls[done] == Err(r.error) && (hasFlag ==> flag[done])
    ensures r.Ok? && done < |polls| ==> hasFlag && !flag[done]
  {
    spawned := [];
    done := 0;
    while done < |polls|
      invariant done <= |polls|
      invariant spawned == Spawned(polls[..done])
      invariant forall k :: 0 <= k < done ==> polls[k].Ok?
      invariant hasFlag ==> forall k :: 0 <= k < done ==> flag[k]
    {
      if hasFlag && !flag[done] {
        return spawned, done, Ok(());
      }
      var commands := polls[done];
      if commands.Err? {
        return spawned, done, Err(commands.error);
      }
      var i := 0;
      while i < |commands.value|
        invariant i <= |commands.value|
        invariant spawned == Spawned(polls[..done]) + commands.value[..i]
      {
        spawned := spawned + [commands.value[i]];
        i := i + 1;
      }
      assert commands.value[..i] == commands.value;
      assert polls[..done + 1][..done] == polls[..done];
      done := done + 1;
    }
    r := Ok(());
  }
}
