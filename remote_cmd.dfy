/**
 * Signed remote commands on the client (remote_cmd.rs): the HMAC check,
 * the script-directory and binary whitelists, and the result posted back.
 * HMAC-SHA256, base64, JSON serialisation, the filesystem and the process
 * run are parameters; the semaphore and the clock are left out (the two
 * timestamps are inputs).
 */
module RemoteCmd {
  import opened Wrappers

  type Bytes = seq<bv8>

  datatype RemoteCommand = RemoteCommand(
    id: string,
    kind: string,
    name: string,
    args: Option<seq<string>>,
    timeoutSecs: Option<nat>,
    signature: string)

  datatype CommandResult = CommandResult(
    id: string,
    status: string,
    exitCode: Option<int>,
    stdout: string,
    stderr: string,
    startedAt: string,
    finishedAt: string)

  /** The command as the server signed it: serialised with an empty signature field. */
  function Canonical(serialize: RemoteCommand -> string, cmd: RemoteCommand): (r: string)
    ensures cmd.signature == "" ==> r == serialize(cmd)
  {
    serialize(cmd.(signature := ""))
  }

  /** The canonical payload does not depend on the signature a command carries. */
  lemma CanonicalIgnoresSignature(serialize: RemoteCommand -> string, cmd: RemoteCommand, sig: string)
    ensures Canonical(serialize, cmd.(signature := sig)) == Canonical(serialize, cmd)
  {
  }

  /**
   * `verify_signature`: false for a signature that is not base64, otherwise
   * whether the decoded bytes are the HMAC of the payload under the secret.
   */
  function VerifySignature(cmd: RemoteCommand, canonical: string, secret: Bytes,
                           hmac: (Bytes, string) -> Bytes, decode: string -> Option<Bytes>): (ok: bool)
    ensures decode(cmd.signature).None? ==> !ok
    ensures ok <==> decode(cmd.signature) == Some(hmac(secret, canonical))
  {
    match decode(cmd.signature)
    case None => false
    case Some(got) => got == hmac(secret, canonical)
  }

  /**
   * A command signed as the server signs it (the base64 of the HMAC of its
   * canonical payload) passes verification, whatever signature it carried
   * before.
   */
  lemma ServerSignedVerifies(serialize: RemoteCommand -> string, cmd: RemoteCommand, secret: Bytes,
                             hmac: (Bytes, string) -> Bytes, encode: Bytes -> string, decode: string -> Option<Bytes>)
    requires forall b :: decode(encode(b)) == Some(b)
    ensures var signed := cmd.(signature := encode(hmac(secret, Canonical(serialize, cmd))));
      VerifySignature(signed, Canonical(serialize, signed), secret, hmac, decode)
  {
    var signed := cmd.(signature := encode(hmac(secret, Canonical(serialize, cmd))));
    CanonicalIgnoresSignature(serialize, cmd, signed.signature);
  }

  const ScriptsDir: string := "/opt/patchpilot_client/scripts"
  const SafeBins: seq<string> := ["patchpilot-helper", "some-other-safe-binary"]
  const DefaultTimeoutSecs: nat := 60

  /** Unix `Path::join`: an absolute name replaces the base, any other is appended after a slash. */
  function JoinPath(base: string, name: string): (p: string)
    ensures |name| > 0 && name[0] == '/' ==> p == name
    ensures !(|name| > 0 && name[0] == '/') ==> p == base + "/" + name
  {
    if |name| > 0 && name[0] == '/' then name else base + "/" + name
  }

  /** Whether `p` names an entry directly inside `dir`. */
  predicate DirectlyIn(dir: string, p: string) {
    |p| > |dir| + 1 && p[..|dir| + 1] == dir + "/" && '/' !in p[|dir| + 1..]
  }

  /** `allowed_script_path` as written: the joined path when it is an existing file. */
  function AllowedScriptPathAsWritten(name: string, isFile: string -> bool): (r: Option<string>)
    ensures r.Some? ==> r.value == JoinPath(ScriptsDir, name) && isFile(r.value)
    ensures r.None? ==> !isFile(JoinPath(ScriptsDir, name))
  {
    var p := JoinPath(ScriptsDir, name);
    if isFile(p) then Some(p) else None
  }

  /** An absolute script name runs any existing file outside the scripts directory. */
  lemma AbsoluteNameEscapes(isFile: string -> bool)
    requires isFile("/bin/sh")
    ensures AllowedScriptPathAsWritten("/bin/sh", isFile) == Some("/bin/sh")
    ensures !DirectlyIn(ScriptsDir, "/bin/sh")
  {
  }

  /** A plain file name: not empty, not `.` or `..`, and without a path separator. */
  predicate PlainName(name: string) {
    name != [] && name != "." && name != ".." && '/' !in name
  }

  /**
   * The whitelist by location the directory is meant to be: only a plain
   * file name is accepted, so the path always lies directly inside the
   * scripts directory.
   */
  function AllowedScriptPath(name: string, isFile: string -> bool): (r: Option<string>)
    ensures r.Some? ==> DirectlyIn(ScriptsDir, r.value) && isFile(r.value)
    ensures r.Some? <==> PlainName(name) && isFile(ScriptsDir + "/" + name)
    ensures PlainName(name) ==> r == AllowedScriptPathAsWritten(name, isFile)
  {
    if PlainName(name) then
      var p := ScriptsDir + "/" + name;
      assert p[..|ScriptsDir| + 1] == ScriptsDir + "/";
      assert p[|ScriptsDir| + 1..] == name;
      if isFile(p) then Some(p) else None
    else None
  }

  /** What running a process produced: its output, a spawn error, or the timeout elapsing. */
  datatype Outcome = Completed(code: Option<int>, stdout: string, stderr: string) | SpawnFailed(err: string) | TimedOut

  /** The process the command starts: program, arguments and time limit in seconds. */
  datatype Launch = Launch(program: string, args: seq<string>, timeoutSecs: nat)

  /** The result posted back, and the process started on the way (None when nothing ran). */
  datatype Execution = Execution(result: CommandResult, launched: Option<Launch>)

  function Rejected(cmd: RemoteCommand, stderr: string, startedAt: string, finishedAt: string): CommandResult {
    CommandResult(cmd.id, "rejected", None, "", stderr, startedAt, finishedAt)
  }

  /** The result mapping after a process was started. */
  function Finished(cmd: RemoteCommand, outcome: Outcome, startedAt: string, finishedAt: string): (r: CommandResult)
    ensures r.id == cmd.id && r.startedAt == startedAt && r.finishedAt == finishedAt
    ensures r.status == "ok" <==> outcome.Completed?
    ensures r.status == "failed" <==> outcome.SpawnFailed?
    ensures r.status == "timeout" <==> outcome.TimedOut?
    ensures outcome.Completed? ==> r.exitCode == outcome.code && r.stdout == outcome.stdout && r.stderr == outcome.stderr
    ensures !outcome.Completed? ==> r.exitCode.None? && r.stdout == ""
  {
    match outcome
    case Completed(code, out, err) => CommandResult(cmd.id, "ok", code, out, err, startedAt, finishedAt)
    case SpawnFailed(e) => CommandResult(cmd.id, "failed", None, "", "failed to spawn/exec: " + e, startedAt, finishedAt)
    case TimedOut => CommandResult(cmd.id, "timeout", None, "", "command timed out", startedAt, finishedAt)
  }

  /**
   * `execute_remote_command`'s decision tree, given the path the script
   * check yields for the command's name: an unverified signature is
   * rejected before anything else; kind "script" runs that path when there
   * is one, kind "exec" a whitelisted binary, and any other kind is
   * rejected; a started process is given the command's time limit or 60
   * seconds. `outcome` is what the process, once started, produced.
   */
  function Dispatch(cmd: RemoteCommand, verified: bool, scriptPath: Option<string>,
                    outcome: Outcome, startedAt: string, finishedAt: string): (e: Execution)
    ensures e.result.id == cmd.id
    ensures !verified ==> e.launched.None? && e.result == Rejected(cmd, "signature verification failed", startedAt, finishedAt)
    ensures e.launched.Some? ==> e.launched.value.timeoutSecs == cmd.timeoutSecs.GetOr(DefaultTimeoutSecs)
    ensures e.launched.Some? ==> e.launched.value.args == cmd.args.GetOr([])
    ensures e.launched.Some? ==> e.result == Finished(cmd, outcome, startedAt, finishedAt)
    ensures e.launched.None? ==> e.result.status == "rejected" && e.result.exitCode.None?
  {
    if !verified then
      Execution(Rejected(cmd, "signature verification failed", startedAt, finishedAt), None)
    else
      var timeoutSecs := cmd.timeoutSecs.GetOr(DefaultTimeoutSecs);
      var args := cmd.args.GetOr([]);
      if cmd.kind == "script" then
        match scriptPath
        case Some(path) => Execution(Finished(cmd, outcome, startedAt, finishedAt), Some(Launch(path, args, timeoutSecs)))
        case None => Execution(Rejected(cmd, "script not allowed or missing: " + cmd.name, startedAt, finishedAt), None)
      else if cmd.kind == "exec" then
        if cmd.name !in SafeBins then
          Execution(Rejected(cmd, "exec '" + cmd.name + "' not whitelisted", startedAt, finishedAt), None)
        else
          Execution(Finished(cmd, outcome, startedAt, finishedAt), Some(Launch(cmd.name, args, timeoutSecs)))
      else
        Execution(Rejected(cmd, "unknown kind '" + cmd.kind + "'", startedAt, finishedAt), None)
  }

  /** `execute_remote_command` as written: scripts are gated by `AllowedScriptPathAsWritten`. */
  function ExecuteRemoteCommand(cmd: RemoteCommand, serialize: RemoteCommand -> string, secret: Bytes,
                                hmac: (Bytes, string) -> Bytes, decode: string -> Option<Bytes>,
                                isFile: string -> bool, outcome: Outcome, startedAt: string, finishedAt: string): (e: Execution)
    ensures e.result.id == cmd.id
    ensures !VerifySignature(cmd, Canonical(serialize, cmd), secret, hmac, decode) ==>
      e.launched.None? && e.result == Rejected(cmd, "signature verification failed", startedAt, finishedAt)
    ensures e.launched.Some? ==> e.launched.value.timeoutSecs == cmd.timeoutSecs.GetOr(DefaultTimeoutSecs)
    ensures e.launched.Some? ==> e.launched.value.args == cmd.args.GetOr([])
    ensures e.launched.Some? ==> e.result == Finished(cmd, outcome, startedAt, finishedAt)
    ensures e.launched.None? ==> e.result.status == "rejected" && e.result.exitCode.None?
  {
    Dispatch(cmd, VerifySignature(cmd, Canonical(serialize, cmd), secret, hmac, decode),
             AllowedScriptPathAsWritten(cmd.name, isFile), outcome, startedAt, finishedAt)
  }

  /**
   * As written, with a verified signature each kind is gated by its check:
   * "script" runs the joined path exactly when it is an existing file,
   * "exec" exactly a whitelisted binary, and any other kind is refused.
   */
  lemma KindGates(cmd: RemoteCommand, serialize: RemoteCommand -> string, secret: Bytes,
                  hmac: (Bytes, string) -> Bytes, decode: string -> Option<Bytes>,
                  isFile: string -> bool, outcome: Outcome, startedAt: string, finishedAt: string)
    requires VerifySignature(cmd, Canonical(serialize, cmd), secret, hmac, decode)
    ensures var e := ExecuteRemoteCommand(cmd, serialize, secret, hmac, decode, isFile, outcome, startedAt, finishedAt);
      cmd.kind == "exec" ==> (e.launched.Some? <==> cmd.name in SafeBins)
    ensures var e := ExecuteRemoteCommand(cmd, serialize, secret, hmac, decode, isFile, outcome, startedAt, finishedAt);
      cmd.kind == "script" ==> (e.launched.Some? <==> isFile(JoinPath(ScriptsDir, cmd.name)))
    ensures var e := ExecuteRemoteCommand(cmd, serialize, secret, hmac, decode, isFile, outcome, startedAt, finishedAt);
      cmd.kind == "script" && e.launched.Some? ==> e.launched.value.program == JoinPath(ScriptsDir, cmd.name)
    ensures var e := ExecuteRemoteCommand(cmd, serialize, secret, hmac, decode, isFile, outcome, startedAt, finishedAt);
      cmd.kind != "exec" && cmd.kind != "script" ==>
        e.launched.None? && e.result.stderr == "unknown kind '" + cmd.kind + "'"
  {
  }

  /**
   * As written, a verified "script" command named "/bin/sh" starts
   * /bin/sh, a program outside the scripts directory.
   */
  lemma AsWrittenLaunchesOutside(cmd: RemoteCommand, serialize: RemoteCommand -> string, secret: Bytes,
                                 hmac: (Bytes, string) -> Bytes, decode: string -> Option<Bytes>,
                                 isFile: string -> bool, outcome: Outcome, startedAt: string, finishedAt: string)
    requires VerifySignature(cmd, Canonical(serialize, cmd), secret, hmac, decode)
    requires cmd.kind == "script" && cmd.name == "/bin/sh" && isFile("/bin/sh")
    ensures var e := ExecuteRemoteCommand(cmd, serialize, secret, hmac, decode, isFile, outcome, startedAt, finishedAt);
      e.launched.Some? && e.launched.value.program == "/bin/sh" && !DirectlyIn(ScriptsDir, e.launched.value.program)
  {
    AbsoluteNameEscapes(isFile);
  }

  /** The executor with the corrected script check. */
  function ExecuteRemoteCommandCorrected(cmd: RemoteCommand, serialize: RemoteCommand -> string, secret: Bytes,
                                         hmac: (Bytes, string) -> Bytes, decode: string -> Option<Bytes>,
                                         isFile: string -> bool, outcome: Outcome, startedAt: string, finishedAt: string): (e: Execution)
    ensures cmd.kind != "script" || PlainName(cmd.name) ==>
      e == ExecuteRemoteCommand(cmd, serialize, secret, hmac, decode, isFile, outcome, startedAt, finishedAt)
  {
    Dispatch(cmd, VerifySignature(cmd, Canonical(serialize, cmd), secret, hmac, decode),
             AllowedScriptPath(cmd.name, isFile), outcome, startedAt, finishedAt)
  }

  /**
   * With the corrected check, only a verified command ever starts a
   * process, and then only a whitelisted binary or an existing file
   * directly inside the scripts directory.
   */
  lemma OnlyWhitelistedRuns(cmd: RemoteCommand, serialize: RemoteCommand -> string, secret: Bytes,
                            hmac: (Bytes, string) -> Bytes, decode: string -> Option<Bytes>,
                            isFile: string -> bool, outcome: Outcome, startedAt: string, finishedAt: string)
    ensures var e := ExecuteRemoteCommandCorrected(cmd, serialize, secret, hmac, decode, isFile, outcome, startedAt, finishedAt);
      e.launched.Some? ==>
        VerifySignature(cmd, Canonical(serialize, cmd), secret, hmac, decode)
        && ((cmd.kind == "exec" && e.launched.value.program in SafeBins)
            || (cmd.kind == "script" && DirectlyIn(ScriptsDir, e.launched.value.program) && isFile(e.launched.value.program)))
  {
  }
}
