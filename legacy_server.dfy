/**
 * The legacy Flask server (server.py): client registration and check-in,
 * the online window, the searchable client table, approval and forced
 * updates, and update-install commands. The SQLAlchemy session is the
 * `ClientRegistry` class holding the `client` and `client_update` tables;
 * a handler's changes are committed together or, when the commit fails,
 * not at all. Times are integer seconds.
 */
module LegacyServer {
  import opened Wrappers
  import opened Sorting

  datatype Client = Client(
    id: string,
    clientName: Option<string>,
    ipAddress: Option<string>,
    approved: bool,
    allowCheckin: bool,
    forceUpdate: bool,
    lastCheckin: Option<int>,
    token: string,
    updatesAvailable: bool,
    osName: Option<string>,
    osVersion: Option<string>,
    cpu: Option<string>,
    ram: Option<string>,
    diskTotal: Option<string>,
    diskFree: Option<string>,
    uptime: Option<string>,
    serialNumber: Option<string>)

  datatype ClientUpdate = ClientUpdate(id: int, clientId: string, kbOrPackage: string, status: string)

  /** A JSON object body whose values are strings or null; None when the body is missing or not JSON. */
  type Payload = map<string, Option<string>>

  /** A JSON reply: the status code and the object sent back. */
  datatype Body = NoContent | ErrorMsg(error: string) | StatusMsg(status: string) | TokenMsg(token: string)
  datatype Reply = Reply(code: int, body: Body)

  const OnlineWindowSecs: int := 3 * 60

  /** `is_online`: checked in at most three minutes ago; never for a client that has not checked in. */
  predicate IsOnline(c: Client, now: int)
    ensures c.lastCheckin.None? ==> !IsOnline(c, now)
    ensures c.lastCheckin.Some? && c.lastCheckin.value <= now <= c.lastCheckin.value + OnlineWindowSecs ==> IsOnline(c, now)
    ensures c.lastCheckin.Some? && now > c.lastCheckin.value + OnlineWindowSecs ==> !IsOnline(c, now)
  {
    c.lastCheckin.Some? && now - c.lastCheckin.value <= OnlineWindowSecs
  }

  /** A client online now was online at every instant since its check-in. */
  lemma OnlineBackwards(c: Client, now: int, earlier: int)
    requires IsOnline(c, now) && c.lastCheckin.value <= earlier <= now
    ensures IsOnline(c, earlier)
    ensures !IsOnline(c, c.lastCheckin.value + OnlineWindowSecs + 1)
  {
  }

  // ----- the client table (`api_clients`) -----

  /** ASCII lower-casing, as SQLite's `lower` does it. */
  function Lower(s: string): (r: string)
    ensures |r| == |s|
    ensures forall i :: 0 <= i < |s| ==> r[i] == if 'A' <= s[i] <= 'Z' then (s[i] as int + 32) as char else s[i]
  {
    seq(|s|, i requires 0 <= i < |s| => if 'A' <= s[i] <= 'Z' then (s[i] as int + 32) as char else s[i])
  }

  /** Whether `needle` occurs in `hay` at some position. */
  predicate Contains(hay: string, needle: string)
    decreases |hay|
  {
    needle <= hay || (hay != [] && Contains(hay[1..], needle))
  }

  /** The empty search string occurs everywhere, and a string contains itself. */
  lemma ContainsBasics(hay: string)
    ensures Contains(hay, "") && Contains(hay, hay)
  {
  }

  /** `col ILIKE '%search%'`: a case-insensitive substring test; NULL never matches. */
  predicate ILike(col: Option<string>, search: string) {
    col.Some? && Contains(Lower(col.value), Lower(search))
  }

  /** The search filter: an empty search keeps everything, otherwise one of five columns must match. */
  predicate MatchesSearch(c: Client, search: string)
    ensures search == [] ==> MatchesSearch(c, search)
    ensures Contains(Lower(c.id), Lower(search)) ==> MatchesSearch(c, search)
  {
    search == [] || ILike(Some(c.id), search) || ILike(c.clientName, search) || ILike(c.osName, search)
      || ILike(c.cpu, search) || ILike(c.ram, search)
  }

  function Filtered(clients: seq<Client>, search: string): (r: seq<Client>)
    ensures forall c :: c in r <==> c in clients && MatchesSearch(c, search)
    ensures forall c :: multiset(r)[c] == if MatchesSearch(c, search) then multiset(clients)[c] else 0
    ensures search == [] ==> r == clients
    ensures |r| <= |clients|
  {
    if clients == [] then []
    else
      assert clients == [clients[0]] + clients[1..];
      if MatchesSearch(clients[0], search) then [clients[0]] + Filtered(clients[1..], search)
      else Filtered(clients[1..], search)
  }

  /** The filter goes client by client, so the matching clients keep their table order. */
  lemma {:induction false} FilteredAppend(a: seq<Client>, b: seq<Client>, search: string)
    ensures Filtered(a + b, search) == Filtered(a, search) + Filtered(b, search)
  {
    if a == [] {
      assert a + b == b;
    } else {
      assert (a + b)[1..] == a[1..] + b;
      FilteredAppend(a[1..], b, search);
    }
  }

  predicate IdOrder(a: Client, b: Client) { StrLe(a.id, b.id) }

  lemma IdOrderIsTotalPreorder()
    ensures TotalPreorder(IdOrder)
  {
    forall a: Client, b: Client ensures IdOrder(a, b) || IdOrder(b, a) {
      StrLeTotal(a.id, b.id);
    }
    forall a: Client, b: Client, c: Client | IdOrder(a, b) && IdOrder(b, c) ensures IdOrder(a, c) {
      StrLeTransitive(a.id, b.id, c.id);
    }
  }

  /**
   * SQLite's `LIMIT length OFFSET start`: a negative offset counts as 0 and
   * a negative limit means no limit.
   */
  function Window<T>(s: seq<T>, start: int, length: int): (r: seq<T>)
    ensures |r| <= |s|
    ensures length >= 0 ==> |r| <= length
    ensures start <= 0 && length < 0 ==> r == s
    ensures start >= |s| ==> r == []
    ensures var off := if start < 0 then 0 else start;
      off <= |s| ==> |r| == (if 0 <= length < |s| - off then length else |s| - off)
    ensures var off := if start < 0 then 0 else start;
      forall i :: 0 <= i < |r| ==> r[i] == s[off + i]
  {
    var off := if start < 0 then 0 else start;
    if off > |s| then []
    else
      var rest := s[off..];
      if 0 <= length < |rest| then rest[..length] else rest
  }

  /** Python's `x or "—"`: None and the empty string both show as a dash. */
  function OrDash(x: Option<string>): (s: string)
    ensures x.Some? && x.value != "" ==> s == x.value
    ensures x.None? || x.value == "" ==> s == "—"
  {
    if x.None? || x.value == "" then "—" else x.value
  }

  /** One table row, cell by cell. */
  function TableRow(c: Client, now: int): (row: seq<string>)
    ensures |row| == 11 && row[0] == c.id && row[10] == c.id
    ensures row[8] == if IsOnline(c, now) then "🟢" else "🔴"
  {
    [c.id, OrDash(c.clientName), OrDash(c.osName), OrDash(c.cpu), OrDash(c.ram),
     OrDash(c.diskTotal) + "/" + OrDash(c.diskFree),
     if c.updatesAvailable then "✅" else "⚠️",
     if c.uptime.None? || c.uptime.value == "" then "N/A" else c.uptime.value,
     if IsOnline(c, now) then "🟢" else "🔴",
     if c.updatesAvailable then "Yes" else "No",
     c.id]
  }

  datatype ClientsPage = ClientsPage(draw: int, recordsTotal: int, recordsFiltered: int, data: seq<seq<string>>)

  /**
   * `api_clients`: both totals are the number of clients matching the
   * search; the rows are those clients in ascending id order, windowed by
   * `start` and `length`, one table row each.
   */
  function ApiClients(clients: seq<Client>, draw: int, start: int, length: int, search: string, now: int): (p: ClientsPage)
    ensures p.draw == draw
    ensures p.recordsTotal == p.recordsFiltered == |Filtered(clients, search)|
    ensures search == [] ==> p.recordsTotal == |clients|
    ensures |p.data| <= p.recordsTotal
    ensures length >= 0 ==> |p.data| <= length
    ensures var off := if start < 0 then 0 else start;
      |p.data| == if off >= p.recordsTotal then 0
                  else if 0 <= length < p.recordsTotal - off then length
                  else p.recordsTotal - off
    ensures var off := if start < 0 then 0 else start;
      forall i :: 0 <= i < |p.data| ==> p.data[i] == TableRow(SortedById(Filtered(clients, search))[off + i], now)
  {
    var matching := Filtered(clients, search);
    var page := Window(SortedById(matching), start, length);
    ClientsPage(draw, |matching|, |matching|, seq(|page|, i requires 0 <= i < |page| => TableRow(page[i], now)))
  }

  /** The matching clients in ascending id order. */
  function SortedById(cs: seq<Client>): (r: seq<Client>)
    ensures multiset(r) == multiset(cs) && |r| == |cs|
    ensures forall i, j :: 0 <= i < j < |r| ==> StrLe(r[i].id, r[j].id)
  {
    IdOrderIsTotalPreorder();
    var r := SortBy(cs, IdOrder);
    assert |r| == |multiset(r)| == |multiset(cs)| == |cs|;
    r
  }

  /** The page's rows, one per client of the window. */
  lemma ApiClientsPage(clients: seq<Client>, draw: int, start: int, length: int, search: string, now: int)
    returns (page: seq<Client>)
    ensures page == Window(SortedById(Filtered(clients, search)), start, length)
    ensures var p := ApiClients(clients, draw, start, length, search, now);
      |p.data| == |page| && forall i :: 0 <= i < |page| ==> p.data[i] == TableRow(page[i], now)
    ensures forall i, j :: 0 <= i < j < |page| ==> StrLe(page[i].id, page[j].id)
    ensures forall i :: 0 <= i < |page| ==> page[i] in clients && MatchesSearch(page[i], search)
  {
    var matching := Filtered(clients, search);
    page := Window(SortedById(matching), start, length);
    WindowMembers(SortedById(matching), start, length);
    SortedMembers(matching);
  }

  /** A window holds only elements of the windowed sequence. */
  lemma WindowMembers<T>(s: seq<T>, start: int, length: int)
    ensures forall x :: x in Window(s, start, length) ==> x in s
  {
    var page := Window(s, start, length);
    var off := if start < 0 then 0 else start;
    forall x | x in page
      ensures x in s
    {
      var i :| 0 <= i < |page| && page[i] == x;
      assert x == s[off + i];
    }
  }

  /** Sorting keeps exactly the clients it was given. */
  lemma SortedMembers(cs: seq<Client>)
    ensures forall c :: c in SortedById(cs) ==> c in cs
  {
    var sorted := SortedById(cs);
    forall c | c in sorted
      ensures c in cs
    {
      assert c in multiset(sorted);
    }
  }

  /** The rows ascend by client id. */
  lemma ApiClientsOrdered(clients: seq<Client>, draw: int, start: int, length: int, search: string, now: int)
    ensures var p := ApiClients(clients, draw, start, length, search, now);
      forall i, j :: 0 <= i < j < |p.data| ==> StrLe(p.data[i][0], p.data[j][0])
  {
    var page := ApiClientsPage(clients, draw, start, length, search, now);
  }

  /** Whether `row` is the table row of some client that matches the search. */
  ghost predicate RowOfMatch(clients: seq<Client>, search: string, row: seq<string>, now: int) {
    exists c :: c in clients && MatchesSearch(c, search) && row == TableRow(c, now)
  }

  /** Every row of the page shows a client that matches the search. */
  lemma ApiClientsMatch(clients: seq<Client>, draw: int, start: int, length: int, search: string, now: int)
    ensures var p := ApiClients(clients, draw, start, length, search, now);
      forall i :: 0 <= i < |p.data| ==> RowOfMatch(clients, search, p.data[i], now)
  {
    var page := ApiClientsPage(clients, draw, start, length, search, now);
    var p := ApiClients(clients, draw, start, length, search, now);
    forall i | 0 <= i < |p.data|
      ensures RowOfMatch(clients, search, p.data[i], now)
    {
      var c := page[i];
      assert c in clients && MatchesSearch(c, search) && p.data[i] == TableRow(c, now);
    }
  }

  // ----- registration and check-in -----

  /** `payload.get(key, current)`: the payload's value when the key is present, else the current one. */
  function GetOr(payload: Payload, key: string, current: Option<string>): (v: Option<string>)
    ensures key in payload ==> v == payload[key]
    ensures key !in payload ==> v == current
  {
    if key in payload then payload[key] else current
  }

  /** The id the payload names, or None for a missing key or null. */
  function PayloadStr(payload: Payload, key: string): Option<string> {
    if key in payload then payload[key] else None
  }

  function IndexOfId(clients: seq<Client>, id: Option<string>): (r: Option<nat>)
    ensures r.Some? ==> (r.value < |clients| && Some(clients[r.value].id) == id
      && forall k :: 0 <= k < r.value ==> clients[k].id != clients[r.value].id)
    ensures r.None? ==> forall c :: c in clients ==> Some(c.id) != id
  {
    if id.None? then None
    else if clients == [] then None
    else if clients[0].id == id.value then Some(0)
    else match IndexOfId(clients[1..], id)
      case None => None
      case Some(k) => Some(k + 1)
  }

  /** `filter_by(serial_number=value).first()`; a None value compiles to `IS NULL`. */
  function IndexOfSerial(clients: seq<Client>, serial: Option<string>): (r: Option<nat>)
    ensures r.Some? ==> r.value < |clients| && clients[r.value].serialNumber == serial
    ensures r.None? ==> forall c :: c in clients ==> c.serialNumber != serial
  {
    if clients == [] then None
    else if clients[0].serialNumber == serial then Some(0)
    else match IndexOfSerial(clients[1..], serial)
      case None => None
      case Some(k) => Some(k + 1)
  }

  /** The row `add_client` inserts for a new id. */
  function NewClient(payload: Payload, id: string, remoteAddr: Option<string>, token: string): (c: Client)
    ensures c.id == id && c.token == token && c.ipAddress == remoteAddr
    ensures c.clientName == GetOr(payload, "client_name", Some("Unnamed Client"))
    ensures c.serialNumber == PayloadStr(payload, "serial_number")
    ensures !c.approved && c.allowCheckin && !c.forceUpdate && !c.updatesAvailable && c.lastCheckin.None?
    ensures c.osName.None? && c.osVersion.None? && c.cpu.None? && c.ram.None?
    ensures c.diskTotal.None? && c.diskFree.None? && c.uptime.None?
  {
    Client(id, GetOr(payload, "client_name", Some("Unnamed Client")), remoteAddr, false, true, false, None, token, false,
           None, None, None, None, None, None, None, PayloadStr(payload, "serial_number"))
  }

  /** `client_update`'s field merge: present keys overwrite, absent keys keep, and the check-in is stamped. */
  function Checkin(c: Client, payload: Payload, remoteAddr: Option<string>, now: int): (d: Client)
    ensures d.id == c.id && d.token == c.token && d.serialNumber == c.serialNumber && d.approved == c.approved
    ensures d.lastCheckin == Some(now) && d.ipAddress == remoteAddr
    ensures d.clientName == GetOr(payload, "client_name", c.clientName)
    ensures d.osName == GetOr(payload, "os_name", c.osName) && d.osVersion == GetOr(payload, "os_version", c.osVersion)
    ensures d.cpu == GetOr(payload, "cpu", c.cpu) && d.ram == GetOr(payload, "ram", c.ram)
    ensures d.diskTotal == GetOr(payload, "disk_total", c.diskTotal) && d.diskFree == GetOr(payload, "disk_free", c.diskFree)
    ensures d.uptime == GetOr(payload, "uptime", c.uptime)
    ensures d.allowCheckin == c.allowCheckin && d.forceUpdate == c.forceUpdate && d.updatesAvailable == c.updatesAvailable
  {
    c.(clientName := GetOr(payload, "client_name", c.clientName),
       ipAddress := remoteAddr,
       lastCheckin := Some(now),
       osName := GetOr(payload, "os_name", c.osName),
       osVersion := GetOr(payload, "os_version", c.osVersion),
       cpu := GetOr(payload, "cpu", c.cpu),
       ram := GetOr(payload, "ram", c.ram),
       diskTotal := GetOr(payload, "disk_total", c.diskTotal),
       diskFree := GetOr(payload, "disk_free", c.diskFree),
       uptime := GetOr(payload, "uptime", c.uptime))
  }

  /** A client that has just checked in is online for the next three minutes. */
  lemma CheckinMakesOnline(c: Client, payload: Payload, remoteAddr: Option<string>, now: int, later: int)
    requires now <= later <= now + OnlineWindowSecs
    ensures IsOnline(Checkin(c, payload, remoteAddr, now), later)
  {
  }

  /** A check-in with an empty-of-fields payload changes only the address and the check-in time. */
  lemma CheckinWithoutFields(c: Client, remoteAddr: Option<string>, now: int)
    ensures Checkin(c, map["token" := Some(c.token)], remoteAddr, now) == c.(ipAddress := remoteAddr, lastCheckin := Some(now))
  {
  }

  /** The token `client_update` checks: the payload's when truthy, else the Authorization header. */
  function PresentedToken(payload: Payload, header: Option<string>): (t: Option<string>)
    ensures "token" in payload && payload["token"].Some? && payload["token"].value != "" ==> t == payload["token"]
    ensures !("token" in payload && payload["token"].Some? && payload["token"].value != "") ==> t == header
  {
    if "token" in payload && payload["token"].Some? && payload["token"].value != "" then payload["token"] else header
  }

  // ----- update commands -----

  const Installing: string := "installing"

  /** Index of the first update row of the client for the package (`filter_by(...).first()`). */
  function FirstUpdateIndex(updates: seq<ClientUpdate>, clientId: string, pkg: string): (r: Option<nat>)
    ensures r.Some? ==> (r.value < |updates| && updates[r.value].clientId == clientId && updates[r.value].kbOrPackage == pkg
      && forall k :: 0 <= k < r.value ==> !(updates[k].clientId == clientId && updates[k].kbOrPackage == pkg))
    ensures r.None? ==> forall k :: 0 <= k < |updates| ==> !(updates[k].clientId == clientId && updates[k].kbOrPackage == pkg)
  {
    if updates == [] then None
    else if updates[0].clientId == clientId && updates[0].kbOrPackage == pkg then Some(0)
    else match FirstUpdateIndex(updates[1..], clientId, pkg)
      case None => None
      case Some(k) => Some(k + 1)
  }

  /** One `install_selected_updates` step: the first row for the package, if any, becomes "installing". */
  function MarkFirst(updates: seq<ClientUpdate>, clientId: string, pkg: string): seq<ClientUpdate> {
    match FirstUpdateIndex(updates, clientId, pkg)
    case None => updates
    case Some(k) => updates[k := updates[k].(status := Installing)]
  }

  /** The steps for every listed package in turn. */
  function MarkSelected(updates: seq<ClientUpdate>, clientId: string, pkgs: seq<string>): (r: seq<ClientUpdate>)
    ensures |r| == |updates|
    ensures forall k :: 0 <= k < |r| ==> r[k].(status := updates[k].status) == updates[k]
    ensures forall k :: 0 <= k < |r| && r[k] != updates[k] ==>
      r[k].status == Installing && updates[k].clientId == clientId && updates[k].kbOrPackage in pkgs
    decreases |pkgs|
  {
    if pkgs == [] then updates
    else MarkFirst(MarkSelected(updates, clientId, pkgs[..|pkgs| - 1]), clientId, pkgs[|pkgs| - 1])
  }

  /** Whether row `k` is the first row of the client for its own package. */
  predicate IsFirstFor(updates: seq<ClientUpdate>, clientId: string, k: nat)
    requires k < |updates|
  {
    updates[k].clientId == clientId && FirstUpdateIndex(updates, clientId, updates[k].kbOrPackage) == Some(k)
  }

  /**
   * `install_selected_updates` marks, for each listed package, the first
   * row of this client for it, and changes nothing else; a package listed
   * twice is marked once.
   */
  lemma {:induction false} MarkSelectedPointwise(updates: seq<ClientUpdate>, clientId: string, pkgs: seq<string>)
    ensures |MarkSelected(updates, clientId, pkgs)| == |updates|
    ensures forall k :: 0 <= k < |updates| ==>
      MarkSelected(updates, clientId, pkgs)[k] ==
        if IsFirstFor(updates, clientId, k) && updates[k].kbOrPackage in pkgs
        then updates[k].(status := Installing) else updates[k]
    decreases |pkgs|
  {
    if pkgs != [] {
      var init := pkgs[..|pkgs| - 1];
      var pkg := pkgs[|pkgs| - 1];
      MarkSelectedPointwise(updates, clientId, init);
      var before := MarkSelected(updates, clientId, init);
      assert forall p :: p in pkgs <==> p in init || p == pkg by {
        assert pkgs == init + [pkg];
      }
      // The rows keep their client and package, so the first row for `pkg` is the same as in `updates`.
      assert FirstUpdateIndex(before, clientId, pkg) == FirstUpdateIndex(updates, clientId, pkg) by {
        SameKeysSameFirst(updates, before, clientId, pkg);
      }
    }
  }

  /** Two tables with the same client and package in every row have the same first row per package. */
  lemma {:induction false} SameKeysSameFirst(a: seq<ClientUpdate>, b: seq<ClientUpdate>, clientId: string, pkg: string)
    requires |a| == |b|
    requires forall k :: 0 <= k < |a| ==> a[k].clientId == b[k].clientId && a[k].kbOrPackage == b[k].kbOrPackage
    ensures FirstUpdateIndex(a, clientId, pkg) == FirstUpdateIndex(b, clientId, pkg)
  {
    if a != [] {
      SameKeysSameFirst(a[1..], b[1..], clientId, pkg);
    }
  }

  /** `install_all_updates`: this client's "pending" rows become "installing"; every other row stays. */
  function MarkAllPending(updates: seq<ClientUpdate>, clientId: string): (r: seq<ClientUpdate>)
    ensures |r| == |updates|
    ensures forall k :: 0 <= k < |r| ==>
      r[k] == if updates[k].clientId == clientId && updates[k].status == "pending" then updates[k].(status := Installing) else updates[k]
  {
    seq(|updates|, k requires 0 <= k < |updates| =>
      if updates[k].clientId == clientId && updates[k].status == "pending" then updates[k].(status := Installing) else updates[k])
  }

  /** The command a request carries: its action and the list of packages (a form's repeated field or a JSON list). */
  datatype Command = Command(action: Option<string>, updates: seq<string>)

  class ClientRegistry {
    var clients: seq<Client>
    var updates: seq<ClientUpdate>

    constructor ()
      ensures clients == [] && updates == []
    {
      clients := [];
      updates := [];
    }

    /**
     * `add_client`: 400 without a body or an "id"; a client found by
     * serial number (NULL matching a missing serial) gets a fresh token, the
     * payload's name if it sends one, and the caller's address, and the token
     * is returned without adding a row; an existing id is refused; otherwise
     * a new client is added. `token` is what `generate_token` returns; a
     * token already in use fails the commit (a 500, nothing saved).
     */
    method AddClient(payload: Option<Payload>, remoteAddr: Option<string>, token: string) returns (r: Reply)
      modifies this`clients
      ensures payload.None? || payload.value == map[] || "id" !in payload.value ==>
        r == Reply(400, ErrorMsg("Invalid data")) && clients == old(clients)
      ensures r.code == 400 ==> clients == old(clients)
      ensures r.code == 200 ==> r.body == TokenMsg(token)
      ensures r.code == 200 ==> exists c :: c in clients && c.token == token
      ensures r.code == 200 && IndexOfSerial(old(clients), PayloadStr(payload.value, "serial_number")).None? ==>
        (PayloadStr(payload.value, "id").Some?
         && clients == old(clients) + [NewClient(payload.value, PayloadStr(payload.value, "id").value, remoteAddr, token)])
      ensures r.code == 200 ==> |clients| <= |old(clients)| + 1
      ensures payload.Some? && payload.value != map[] && "id" in payload.value
              && IndexOfId(old(clients), PayloadStr(payload.value, "id")).Some? ==>
        r == Reply(400, ErrorMsg("Client already exists")) && clients == old(clients)
      ensures payload.Some? && payload.value != map[] && "id" in payload.value
              && IndexOfId(old(clients), PayloadStr(payload.value, "id")).None?
              && IndexOfSerial(old(clients), PayloadStr(payload.value, "serial_number")).Some? ==>
        var k := IndexOfSerial(old(clients), PayloadStr(payload.value, "serial_number")).value;
        var c := old(clients)[k];
        if exists j :: 0 <= j < |old(clients)| && j != k && old(clients)[j].token == token
        then r == Reply(500, NoContent) && clients == old(clients)
        else r == Reply(200, TokenMsg(token)) && |clients| == |old(clients)|
             && clients == old(clients)[k := c.(token := token,
                                                clientName := GetOr(payload.value, "client_name", c.clientName),
                                                ipAddress := remoteAddr)]
      ensures payload.Some? && payload.value != map[] && "id" in payload.value
              && IndexOfId(old(clients), PayloadStr(payload.value, "id")).None?
              && IndexOfSerial(old(clients), PayloadStr(payload.value, "serial_number")).None? ==>
        if PayloadStr(payload.value, "id").None? || exists c :: c in old(clients) && c.token == token
        then r == Reply(500, NoContent) && clients == old(clients)
        else r == Reply(200, TokenMsg(token))
             && clients == old(clients) + [NewClient(payload.value, PayloadStr(payload.value, "id").value, remoteAddr, token)]
      ensures r.code == 500 ==> clients == old(clients)
      ensures r.code in {200, 400, 500}
    {
      if payload.None? || payload.value == map[] || "id" !in payload.value {
        return Reply(400, ErrorMsg("Invalid data"));
      }
      var data := payload.value;
      var byId := IndexOfId(clients, PayloadStr(data, "id"));
      if byId.None? {
        var bySerial := IndexOfSerial(clients, PayloadStr(data, "serial_number"));
        if bySerial.Some? {
          var k := bySerial.value;
          if exists j :: 0 <= j < |clients| && j != k && clients[j].token == token {
            return Reply(500, NoContent);
          }
          var c := clients[k];
          clients := clients[k := c.(token := token, clientName := GetOr(data, "client_name", c.clientName), ipAddress := remoteAddr)];
          assert clients[k].token == token;
          return Reply(200, TokenMsg(token));
        }
      }
      if byId.Some? {
        return Reply(400, ErrorMsg("Client already exists"));
      }
      var id := PayloadStr(data, "id");
      if id.None? || exists c :: c in clients && c.token == token {
        // a null id fails the NOT NULL primary key, a reused token the unique constraint
        return Reply(500, NoContent);
      }
      clients := clients + [NewClient(data, id.value, remoteAddr, token)];
      assert clients[|clients| - 1].token == token;
      r := Reply(200, TokenMsg(token));
    }

    /**
     * `client_update`: 404 for an unknown id, 400 for a missing or empty
     * body, 401 when the presented token differs from the client's;
     * otherwise the client's fields are merged from the payload and its
     * check-in stamped.
     */
    method ClientCheckin(id: string, payload: Option<Payload>, authHeader: Option<string>, remoteAddr: Option<string>, now: int)
      returns (r: Reply)
      modifies this`clients
      ensures IndexOfId(old(clients), Some(id)).None? ==> r == Reply(404, NoContent)
      ensures IndexOfId(old(clients), Some(id)).Some? && (payload.None? || payload.value == map[]) ==> r == Reply(400, ErrorMsg("Invalid data"))
      ensures IndexOfId(old(clients), Some(id)).Some? && payload.Some? && payload.value != map[] ==>
        var k := IndexOfId(old(clients), Some(id)).value;
        if PresentedToken(payload.value, authHeader) != Some(old(clients)[k].token)
        then r == Reply(401, ErrorMsg("Unauthorized")) && clients == old(clients)
        else r == Reply(200, StatusMsg("checked in successfully"))
             && clients == old(clients)[k := Checkin(old(clients)[k], payload.value, remoteAddr, now)]
      ensures r.code != 200 ==> clients == old(clients)
    {
      var found := IndexOfId(clients, Some(id));
      if found.None? {
        return Reply(404, NoContent);
      }
      if payload.None? || payload.value == map[] {
        return Reply(400, ErrorMsg("Invalid data"));
      }
      var k := found.value;
      if PresentedToken(payload.value, authHeader) != Some(clients[k].token) {
        return Reply(401, ErrorMsg("Unauthorized"));
      }
      clients := clients[k := Checkin(clients[k], payload.value, remoteAddr, now)];
      r := Reply(200, StatusMsg("checked in successfully"));
    }

    /** `approve_client`: 404 for an unknown id, else the client is approved and nothing else changes. */
    method ApproveClient(id: string) returns (r: Reply)
      modifies this`clients
      ensures IndexOfId(old(clients), Some(id)).None? ==> r == Reply(404, NoContent) && clients == old(clients)
      ensures IndexOfId(old(clients), Some(id)).Some? ==> r == Reply(204, NoContent)
      ensures IndexOfId(old(clients), Some(id)).Some? ==>
        var k := IndexOfId(old(clients), Some(id)).value;
        clients == old(clients)[k := old(clients)[k].(approved := true)]
    {
      var found := IndexOfId(clients, Some(id));
      if found.None? {
        return Reply(404, NoContent);
      }
      clients := clients[found.value := clients[found.value].(approved := true)];
      r := Reply(204, NoContent);
    }

    /** `force_update_client`: 404 for an unknown id, else the client's `force_update` is set. */
    method ForceUpdateClient(id: string) returns (r: Reply)
      modifies this`clients
      ensures IndexOfId(old(clients), Some(id)).None? ==> r == Reply(404, NoContent) && clients == old(clients)
      ensures IndexOfId(old(clients), Some(id)).Some? ==> r == Reply(204, NoContent)
      ensures IndexOfId(old(clients), Some(id)).Some? ==>
        var k := IndexOfId(old(clients), Some(id)).value;
        clients == old(clients)[k := old(clients)[k].(forceUpdate := true)]
    {
      var found := IndexOfId(clients, Some(id));
      if found.None? {
        return Reply(404, NoContent);
      }
      clients := clients[found.value := clients[found.value].(forceUpdate := true)];
      r := Reply(204, NoContent);
    }

    /** `force_all_clients`: 401 unless `auth_admin` accepts; otherwise every client gets `force_update`. */
    method ForceAllClients(adminOk: bool) returns (r: Reply)
      modifies this`clients
      ensures !adminOk ==> r == Reply(401, ErrorMsg("Unauthorized")) && clients == old(clients)
      ensures adminOk ==> r == Reply(200, StatusMsg("all clients forced to update"))
      ensures adminOk ==> |clients| == |old(clients)|
      ensures adminOk ==> forall k :: 0 <= k < |clients| ==> clients[k] == old(clients)[k].(forceUpdate := true)
    {
      if !adminOk {
        return Reply(401, ErrorMsg("Unauthorized"));
      }
      var i := 0;
      while i < |clients|
        invariant 0 <= i <= |clients| == |old(clients)|
        invariant forall k :: 0 <= k < i ==> clients[k] == old(clients)[k].(forceUpdate := true)
        invariant forall k :: i <= k < |clients| ==> clients[k] == old(clients)[k]
      {
        clients := clients[i := clients[i].(forceUpdate := true)];
        i := i + 1;
      }
      r := Reply(200, StatusMsg("all clients forced to update"));
    }

    /**
     * `send_command`: 404 for an unknown client, 401 unless `auth_admin`
     * accepts; "install_selected_updates" with a non-empty list marks the
     * first row per listed package, "install_all_updates" marks every
     * pending row of the client; anything else is a 400 with no change.
     */
    method SendCommand(id: string, cmd: Command, adminOk: bool) returns (r: Reply)
      modifies this`updates
      ensures IndexOfId(clients, Some(id)).None? ==> r == Reply(404, NoContent)
      ensures IndexOfId(clients, Some(id)).Some? && !adminOk ==> r == Reply(401, ErrorMsg("Unauthorized"))
      ensures IndexOfId(clients, Some(id)).Some? && adminOk ==>
        if cmd.action == Some("install_selected_updates") && cmd.updates != [] then
          r == Reply(200, StatusMsg("command queued")) && updates == MarkSelected(old(updates), id, cmd.updates)
        else if cmd.action == Some("install_all_updates") then
          r == Reply(200, StatusMsg("command queued")) && updates == MarkAllPending(old(updates), id)
        else r == Reply(400, ErrorMsg("Unknown action"))
      ensures r.code != 200 ==> updates == old(updates)
    {
      var found := IndexOfId(clients, Some(id));
      if found.None? {
        return Reply(404, NoContent);
      }
      if !adminOk {
        return Reply(401, ErrorMsg("Unauthorized"));
      }
      if cmd.action == Some("install_selected_updates") && cmd.updates != [] {
        QueueSelected(id, cmd.updates);
      } else if cmd.action == Some("install_all_updates") {
        QueueAll(id);
      } else {
        return Reply(400, ErrorMsg("Unknown action"));
      }
      r := Reply(200, StatusMsg("command queued"));
    }

    /** The "install_selected_updates" loop: mark the client's first row of each listed package, in turn. */
    method QueueSelected(id: string, packages: seq<string>)
      modifies this`updates
      ensures updates == MarkSelected(old(updates), id, packages)
    {
      var i := 0;
      while i < |packages|
        invariant 0 <= i <= |packages|
        invariant updates == MarkSelected(old(updates), id, packages[..i])
      {
        assert packages[..i + 1][..i] == packages[..i];
        var k := FirstUpdateIndex(updates, id, packages[i]);
        if k.Some? {
          updates := updates[k.value := updates[k.value].(status := Installing)];
        }
        i := i + 1;
      }
      assert packages[..i] == packages;
    }

    /** The "install_all_updates" loop: mark every pending row of the client. */
    method QueueAll(id: string)
      modifies this`updates
      ensures updates == MarkAllPending(old(updates), id)
    {
      var i := 0;
      ghost var before := updates;
      while i < |updates|
        invariant 0 <= i <= |updates| == |before|
        invariant forall k :: 0 <= k < i ==> updates[k] == MarkAllPending(before, id)[k]
        invariant forall k :: i <= k < |updates| ==> updates[k] == before[k]
      {
        if updates[i].clientId == id && updates[i].status == "pending" {
          updates := updates[i := updates[i].(status := Installing)];
        }
        i := i + 1;
      }
    }
  }
}
