/**
 * The client's shell-command engine (command.rs): reading a command item,
 * the result payload, the result URL, and the long-poll loop's dispatch.
 * The process run, the HTTP calls and the sleeps are inputs; spawned tasks
 * are recorded in the order they are spawned.
 */
module CommandEngine {
  import opened Wrappers
  import opened Seqs
  import J = Json

  /** `cmd_item.get("id").and_then(as_str).unwrap_or("unknown")`. */
  function CommandId(item: J.Value): (id: string)
    ensures J.GetStr(item, "id").Some? ==> id == J.GetStr(item, "id").value
    ensures J.GetStr(item, "id").None? ==> id == "unknown"
  {
    J.GetStr(item, "id").GetOr("unknown")
  }

  /** The command text: the string "exec" member, else the string "script" member, else empty. */
  function CommandText(item: J.Value): (text: string)
    ensures J.GetStr(item, "exec").Some? ==> text == J.GetStr(item, "exec").value
    ensures J.GetStr(item, "exec").None? && J.GetStr(item, "script").Some? ==> text == J.GetStr(item, "script").value
    ensures J.GetStr(item, "exec").None? && J.GetStr(item, "script").None? ==> text == ""
  {
    match J.GetStr(item, "exec")
    case Some(s) => s
    case None => J.GetStr(item, "script").GetOr("")
  }

  /** `kind` is echoed back, "exec" by default. */
  function CommandKind(item: J.Value): (kind: string)
    ensures J.GetStr(item, "kind").Some? ==> kind == J.GetStr(item, "kind").value
    ensures J.GetStr(item, "kind").None? ==> kind == "exec"
  {
    J.GetStr(item, "kind").GetOr("exec")
  }

  /** What `sh -c` produced: the process ran with its output and exit code, or it could not start. */
  datatype RunOutcome = Started(stdout: string, stderr: string, code: Option<int>) | StartFailed(err: string)

  /** The blocking task's end: the outcome, or the panic message of the task. */
  type TaskEnd = Result<RunOutcome, string>

  datatype Payload =
    | Error(reason: string)
    | Report(ok: bool, kind: string, stdout: string, stderr: string, exitCode: int)

  /** A posted result: where it went and what it said; `ran` is the shell text, if a process was attempted. */
  datatype Posted = Posted(url: string, payload: Payload, ran: Option<string>)

  function ResultUrl(serverUrl: string, deviceId: string, cmdId: string): (url: string)
    ensures url == serverUrl + "/api/devices/" + deviceId + "/commands/" + cmdId + "/result"
  {
    serverUrl + "/api/devices/" + deviceId + "/commands/" + cmdId + "/result"
  }

  /** The URL names the device and the command: with the server fixed, equal URLs for ids without a slash mean equal ids. */
  lemma ResultUrlInjective(serverUrl: string, d1: string, c1: string, d2: string, c2: string)
    requires '/' !in d1 && '/' !in d2 && '/' !in c1 && '/' !in c2
    requires ResultUrl(serverUrl, d1, c1) == ResultUrl(serverUrl, d2, c2)
    ensures d1 == d2 && c1 == c2
  {
    var p := serverUrl + "/api/devices/";
    var u1 := ResultUrl(serverUrl, d1, c1);
    var u2 := ResultUrl(serverUrl, d2, c2);
    var x1 := "/commands/" + c1 + "/result";
    var x2 := "/commands/" + c2 + "/result";
    assert u1 == p + (d1 + x1) && u2 == p + (d2 + x2);
    assert d1 + x1 == u1[|p|..] == d2 + x2;
    SplitAtFirstSlash(d1, x1, d2, x2);
    assert "/commands/" + c1 + "/result" == "/commands/" + c2 + "/result";
    var q := "/commands/";
    assert (q + c1 + "/result")[|q|..] == c1 + "/result";
    assert (q + c2 + "/result")[|q|..] == c2 + "/result";
    assert c1 + "/result" == c2 + "/result";
    assert c1 == (c1 + "/result")[..|c1|];
    SlashFreeLength(c1, c2, "/result");
  }

  /** Two slash-free heads followed by slash-led tails split the same way. */
  lemma {:induction false} SplitAtFirstSlash(a: string, x: string, b: string, y: string)
    requires '/' !in a && '/' !in b && |x| > 0 && x[0] == '/' && |y| > 0 && y[0] == '/'
    requires a + x == b + y
    ensures a == b && x == y
  {
    // the first character is '/' exactly on the side whose head is empty
    assert (a + x)[0] == (if a == [] then x[0] else a[0]);
    assert (b + y)[0] == (if b == [] then y[0] else b[0]);
    if a == [] && b == [] {
      assert a + x == x && b + y == y;
    } else if a != [] && b != [] {
      assert (a + x)[1..] == a[1..] + x && (b + y)[1..] == b[1..] + y;
      SplitAtFirstSlash(a[1..], x, b[1..], y);
      assert a == [a[0]] + a[1..] && b == [b[0]] + b[1..];
    }
  }

  lemma SlashFreeLength(a: string, b: string, tail: string)
    requires '/' !in a && '/' !in b && |tail| > 0 && tail[0] == '/'
    requires a + tail == b + tail
    ensures a == b
  {
    SplitAtFirstSlash(a, tail, b, tail);
  }

  /**
   * `execute_command_and_post_result`: a command without text posts the
   * "missing exec/script field" error and runs nothing; otherwise the text
   * is run with `sh -c` and a report posted whose status is "ok" exactly
   * when the process started and whose exit code is -1 when there is none;
   * a panicked task posts "panic: <message>".
   */
  function ExecuteCommand(serverUrl: string, deviceId: string, item: J.Value, task: TaskEnd): (p: Posted)
    ensures p.url == ResultUrl(serverUrl, deviceId, CommandId(item))
    ensures CommandText(item) == "" <==> p.ran.None?
    ensures CommandText(item) == "" ==> p.payload == Error("missing exec/script field")
    ensures p.ran.Some? ==> p.ran.value == CommandText(item)
    ensures p.ran.Some? && task.Err? ==> p.payload == Error("panic: " + task.error)
    ensures p.ran.Some? && task.Ok? ==> p.payload.Report? && p.payload.kind == CommandKind(item)
    ensures p.payload.Report? ==> (p.payload.ok <==> task.value.Started?)
    ensures p.payload.Report? ==>
      p.payload.exitCode == (if task.value.Started? then task.value.code.GetOr(-1) else -1)
  {
    var url := ResultUrl(serverUrl, deviceId, CommandId(item));
    var text := CommandText(item);
    if text == "" then Posted(url, Error("missing exec/script field"), None)
    else
      match task
      case Err(msg) => Posted(url, Error("panic: " + msg), Some(text))
      case Ok(Started(out, err, code)) => Posted(url, Report(true, CommandKind(item), out, err, code.GetOr(-1)), Some(text))
      case Ok(StartFailed(e)) => Posted(url, Report(false, CommandKind(item), "", "Failed to start process: " + e, -1), Some(text))
  }

  /** The kind never decides what runs: two items differing only in "kind" run the same text. */
  lemma KindOnlyEchoed(serverUrl: string, deviceId: string, fields: map<string, J.Value>, k1: string, k2: string, task: TaskEnd)
    ensures ExecuteCommand(serverUrl, deviceId, J.Obj(fields["kind" := J.Str(k1)]), task).ran
         == ExecuteCommand(serverUrl, deviceId, J.Obj(fields["kind" := J.Str(k2)]), task).ran
  {
    var a := J.Obj(fields["kind" := J.Str(k1)]);
    var b := J.Obj(fields["kind" := J.Str(k2)]);
    assert J.GetStr(a, "exec") == J.GetStr(b, "exec");
    assert J.GetStr(a, "script") == J.GetStr(b, "script");
  }

  /** One long poll's end: no response or a non-success status, or the body (None when it is not JSON). */
  datatype PollEnd = Unreachable | Rejected | Body(value: Option<J.Value>)

  /** The items a poll hands out: the elements of an array body, nothing otherwise. */
  function PollItems(p: PollEnd): (items: seq<J.Value>)
    ensures p.Body? && p.value.Some? && p.value.value.Arr? ==> items == p.value.value.items
    ensures !(p.Body? && p.value.Some? && p.value.value.Arr?) ==> items == []
  {
    if p.Body? && p.value.Some? && p.value.value.Arr? then p.value.value.items else []
  }

  /** Everything spawned over a run of polls, in order: one spawn per array element. */
  function Dispatched(polls: seq<PollEnd>): (r: seq<J.Value>)
    ensures |r| == SumItems(polls)
    decreases |polls|
  {
    if polls == [] then [] else Dispatched(polls[..|polls| - 1]) + PollItems(polls[|polls| - 1])
  }

  /** Dispatch is compositional: a run of polls spawns what its parts spawn, in order. */
  lemma {:induction false} DispatchedAppend(a: seq<PollEnd>, b: seq<PollEnd>)
    ensures Dispatched(a + b) == Dispatched(a) + Dispatched(b)
    decreases |b|
  {
    if b == [] {
      assert a + b == a;
    } else {
      var b' := b[..|b| - 1];
      SnocOfAppend(a, b);
      DispatchedAppend(a, b');
      AppendAssoc(Dispatched(a), Dispatched(b'), PollItems(b[|b| - 1]));
    }
  }

  /** A poll without an array spawns nothing, so a run of such polls spawns nothing. */
  lemma {:induction false} DispatchedCount(polls: seq<PollEnd>)
    ensures (forall k :: 0 <= k < |polls| ==> PollItems(polls[k]) == []) ==> Dispatched(polls) == []
    ensures polls != [] && !(polls[|polls| - 1].Body? && polls[|polls| - 1].value.Some? && polls[|polls| - 1].value.value.Arr?)
            ==> Dispatched(polls) == Dispatched(polls[..|polls| - 1])
    decreases |polls|
  {
    if polls != [] {
      DispatchedCount(polls[..|polls| - 1]);
    }
  }

  function SumItems(polls: seq<PollEnd>): nat
    decreases |polls|
  {
    if polls == [] then 0 else SumItems(polls[..|polls| - 1]) + |PollItems(polls[|polls| - 1])|
  }

  /**
   * `command_poll_loop`, run against the poll results `polls` and the
   * running flag's value before each poll (`flag[k]`; no flag means run on).
   * The loop stops before the first poll whose flag is cleared; every
   * element of every array body is spawned, in order.
   */
  method CommandPollLoop(polls: seq<PollEnd>, hasFlag: bool, flag: seq<bool>) returns (spawned: seq<J.Value>, done: nat)
    requires |flag| == |polls|
    ensures done <= |polls|
    ensures spawned == Dispatched(polls[..done])
    ensures hasFlag ==> forall k :: 0 <= k < done ==> flag[k]
    ensures hasFlag && done < |polls| ==> !flag[done]
    ensures !hasFlag ==> done == |polls|
  {
    spawned := [];
    done := 0;
    while done < |polls|
      invariant done <= |polls|
      invariant spawned == Dispatched(polls[..done])
      invariant hasFlag ==> forall k :: 0 <= k < done ==> flag[k]
    {
      if hasFlag && !flag[done] {
        break;
      }
      var items := PollItems(polls[done]);
      var i := 0;
      while i < |items|
        invariant i <= |items|
        invariant spawned == Dispatched(polls[..done]) + items[..i]
      {
        spawned := spawned + [items[i]];
        i := i + 1;
      }
      assert items[..i] == items;
      assert polls[..done + 1][..done] == polls[..done];
      done := done + 1;
    }
  }
}
