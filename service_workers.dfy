/**
 * The three service-worker scripts of the browser client. Each handles a
 * `push` event by choosing a notification title and options from the
 * pushed JSON payload, and a `notificationclick` event by closing the
 * notification and opening the task page. They differ in their defaults,
 * icons, whether the payload is attached to the notification, and how a
 * payload that parses to a falsy value is treated.
 *
 * The payload is taken as already parsed (`event.data.json()`); showing
 * the notification and opening the window are the platform's, and appear
 * here as the values handed to it.
 */
module ServiceWorkers {
  import opened Wrappers

  /** A parsed JSON value. Object members keep their textual order. */
  datatype Json =
    | JNull
    | JBool(b: bool)
    | JNum(n: real)
    | JStr(s: string)
    | JArr(items: seq<Json>)
    | JObj(members: seq<(string, Json)>)

  /** The per-script differences. */
  datatype WorkerConfig = WorkerConfig(
    defaultTitle: string,
    defaultBody: string,
    icon: string,
    attachData: bool,
    falsyPayloadIsEmpty: bool,
    clickUrl: string)

  /** public/service-worker.js */
  const PublicWorker: WorkerConfig :=
    WorkerConfig("Smart Task Organizer", "You have a new task reminder!", "/vite.svg", false, false, "http://localhost:5173/tasks")

  /** src/service-worker.ts */
  const TsWorker: WorkerConfig :=
    WorkerConfig("Task Reminder", "You have a task reminder", "/icon-192x192.png", true, true, "/tasks")

  /** src/service-worker.js */
  const JsWorker: WorkerConfig :=
    WorkerConfig("Task Reminder", "You have a task reminder!", "/icon-192x192.png", true, false, "/tasks")

  /** Icon and badge are always the same image; `data` is present only where the script attaches it. */
  datatype NotificationOptions = NotificationOptions(body: Json, icon: string, badge: string, data: Option<Json>)

  datatype PushResult =
    | Show(title: Json, options: NotificationOptions)
    | Throws(error: string)

  datatype ClickAction = CloseNotification | OpenWindow(url: string)

  /** JavaScript truthiness of a value read from the payload; `None` is `undefined`. */
  predicate Truthy(v: Option<Json>) {
    match v
    case None => false
    case Some(JNull) => false
    case Some(JBool(b)) => b
    case Some(JNum(n)) => n != 0.0
    case Some(JStr(s)) => s != ""
    case Some(_) => true
  }

  /** The value of the last member named `name`, as `JSON.parse` keeps the last duplicate. */
  function LastMember(members: seq<(string, Json)>, name: string): (r: Option<Json>)
    ensures r.Some? <==> exists i :: 0 <= i < |members| && members[i].0 == name
  {
    if members == [] then None
    else if members[|members| - 1].0 == name then Some(members[|members| - 1].1)
    else
      var r := LastMember(members[..|members| - 1], name);
      assert forall i :: 0 <= i < |members| - 1 ==> members[..|members| - 1][i] == members[i];
      r
  }

  /** `data.name`: an object's member, `undefined` on other values, a TypeError on null. */
  function Property(data: Json, name: string): (r: Result<Option<Json>, string>)
    ensures r.Err? <==> data.JNull?
    ensures r.Ok? && r.value.Some? ==> data.JObj?
  {
    match data
    case JNull => Err("TypeError")
    case JObj(members) => Ok(LastMember(members, name))
    case _ => Ok(None)
  }

  /** `data.name || fallback`. */
  function OrDefault(v: Option<Json>, fallback: string): (r: Json)
    ensures Truthy(v) ==> r == v.value
    ensures !Truthy(v) ==> r == JStr(fallback)
  {
    if Truthy(v) then v.value else JStr(fallback)
  }

  /**
   * The payload the handler reads: `{}` when the push carries no data, and
   * in the TypeScript worker also when the data parses to a falsy value.
   */
  function PayloadOf(cfg: WorkerConfig, pushed: Option<Json>): (data: Json)
    ensures pushed.None? ==> data == JObj([])
    ensures pushed.Some? && (Truthy(pushed) || !cfg.falsyPayloadIsEmpty) ==> data == pushed.value
    ensures pushed.Some? && !Truthy(pushed) && cfg.falsyPayloadIsEmpty ==> data == JObj([])
  {
    match pushed
    case None => JObj([])
    case Some(v) => if cfg.falsyPayloadIsEmpty && !Truthy(pushed) then JObj([]) else v
  }

  /** The `push` handler: the title and options handed to `showNotification`, or the error it throws first. */
  function OnPush(cfg: WorkerConfig, pushed: Option<Json>): (r: PushResult)
    ensures r.Throws? <==> PayloadOf(cfg, pushed).JNull?
    ensures r.Show? ==> r.options.icon == cfg.icon && r.options.badge == cfg.icon
    ensures r.Show? ==> (r.options.data.Some? <==> cfg.attachData)
    ensures r.Show? && cfg.attachData ==> r.options.data == Some(PayloadOf(cfg, pushed))
    ensures r.Show? ==> r.title == OrDefault(Property(PayloadOf(cfg, pushed), "title").value, cfg.defaultTitle)
    ensures r.Show? ==> r.options.body == OrDefault(Property(PayloadOf(cfg, pushed), "body").value, cfg.defaultBody)
  {
    var data := PayloadOf(cfg, pushed);
    match Property(data, "title")
    case Err(e) => Throws(e)
    case Ok(title) =>
      match Property(data, "body")
      case Err(e) => Throws(e)
      case Ok(body) =>
        var options := NotificationOptions(OrDefault(body, cfg.defaultBody), cfg.icon, cfg.icon,
                                           if cfg.attachData then Some(data) else None);
        Show(OrDefault(title, cfg.defaultTitle), options)
  }

  /** The `notificationclick` handler: close the notification, then open the task page once. */
  function OnClick(cfg: WorkerConfig): (actions: seq<ClickAction>)
    ensures |actions| == 2 && actions[0] == CloseNotification && actions[1] == OpenWindow(cfg.clickUrl)
  {
    [CloseNotification, OpenWindow(cfg.clickUrl)]
  }

  /** A push without data shows the script's default title and body. */
  lemma NoDataShowsDefaults(cfg: WorkerConfig)
    ensures OnPush(cfg, None).Show?
    ensures OnPush(cfg, None).title == JStr(cfg.defaultTitle)
    ensures OnPush(cfg, None).options.body == JStr(cfg.defaultBody)
  {
  }

  /** A payload object with a non-empty string title and body shows exactly those. */
  lemma PayloadTextShown(cfg: WorkerConfig, title: string, body: string)
    requires title != "" && body != ""
    ensures var r := OnPush(cfg, Some(JObj([("title", JStr(title)), ("body", JStr(body))])));
            r.Show? && r.title == JStr(title) && r.options.body == JStr(body)
  {
    var members := [("title", JStr(title)), ("body", JStr(body))];
    assert members[..1] == [("title", JStr(title))];
    assert LastMember(members, "title") == Some(JStr(title));
    assert LastMember(members, "body") == Some(JStr(body));
  }

  /** An empty title and body in the payload fall back to the defaults, as missing ones do. */
  lemma EmptyTextFallsBack(cfg: WorkerConfig)
    ensures var r := OnPush(cfg, Some(JObj([("title", JStr("")), ("body", JStr(""))])));
            r.Show? && r.title == JStr(cfg.defaultTitle) && r.options.body == JStr(cfg.defaultBody)
  {
    var members := [("title", JStr("")), ("body", JStr(""))];
    assert members[..1] == [("title", JStr(""))];
    assert LastMember(members, "title") == Some(JStr(""));
    assert LastMember(members, "body") == Some(JStr(""));
  }

  /** The TypeScript worker shows a notification for every payload. */
  lemma TsWorkerNeverThrows(pushed: Option<Json>)
    ensures OnPush(TsWorker, pushed).Show?
  {
  }

  /** The two JavaScript workers throw on a payload that is JSON `null`, before showing anything. */
  lemma JsWorkersThrowOnNull()
    ensures OnPush(PublicWorker, Some(JNull)).Throws?
    ensures OnPush(JsWorker, Some(JNull)).Throws?
    ensures OnPush(TsWorker, Some(JNull)) == OnPush(TsWorker, None)
  {
  }

  /** Every worker ignores any other payload field: only the title and body reach the notification text. */
  lemma OtherMembersIgnored(cfg: WorkerConfig, members: seq<(string, Json)>, name: string, v: Json)
    requires name != "title" && name != "body"
    ensures var r := OnPush(cfg, Some(JObj(members)));
            var s := OnPush(cfg, Some(JObj(members + [(name, v)])));
            r.Show? && s.Show? && r.title == s.title && r.options.body == s.options.body
  {
    var extended := members + [(name, v)];
    assert extended[..|extended| - 1] == members;
  }
}
