/**
 * The dispatcher the agent uses to call a calendar tool by its schema name: a
 * table from seven tags to handlers that pick their arguments out of the JSON
 * argument object. What a handler then does is modelled by the other calendar
 * modules; here it is the choice of handler and the arguments it receives.
 */
module CalendarDispatch {
  import opened Wrappers
  import opened CalendarEvents

  /** A JSON value in the argument object; `Null` is also what `args.get` returns for a
      missing key. */
  datatype Value = Str(s: string) | Num(n: int) | Null

  /** A handler call with the arguments it was given. */
  datatype Call =
    | GetEvent(date: Value)
    | SearchEvent(query: Value, days: int)
    | CreateEvent(title: Value, date: Value, time: Value)
    | UpdateEvent(eventId: Value, title: Value, date: Value, time: Value)
    | DeleteEvent(eventId: Value)
    | FindFreeSlot(date: Value, duration: Value)
    | DailySummaryCall(date: Value)

  /** What `run_tool` does: report an unknown tag, fail on a missing required argument
      (`KeyError`), or call a handler. */
  datatype Dispatch = UnknownTool(error: string) | ArgumentError(err: CalendarError) | Invoke(call: Call)

  const KnownTags: set<string> :=
    {"getEvent", "searchEvent", "createEvent", "updateEvent", "deleteEvent", "findFreeSlot", "dailySummary"}

  /** The days `search_event` looks ahead when the dispatcher calls it. */
  const SearchDays: int := 30

  /** `args.get(key)` */
  function Get(args: map<string, Value>, key: string): Value {
    if key in args then args[key] else Null
  }

  /** `args[key]`, or the `KeyError` it raises. */
  function Require(args: map<string, Value>, key: string): Result<Value, CalendarError> {
    if key in args then Ok(args[key]) else Err(MissingKey(key))
  }

  /** The handler of a known tag applied to the arguments; required arguments are read in
      the order the handler names them, so the first missing one is reported. */
  function Handle(tag: string, args: map<string, Value>): Dispatch
    requires tag in KnownTags
  {
    match tag
    case "getEvent" => Invoke(GetEvent(Get(args, "date")))
    case "searchEvent" =>
      (match Require(args, "query")
       case Err(e) => ArgumentError(e)
       case Ok(q) => Invoke(SearchEvent(q, SearchDays)))
    case "createEvent" =>
      (match (Require(args, "title"), Require(args, "date"))
       case (Err(e), _) => ArgumentError(e)
       case (_, Err(e)) => ArgumentError(e)
       case (Ok(t), Ok(d)) => Invoke(CreateEvent(t, d, Get(args, "time"))))
    case "updateEvent" =>
      (match Require(args, "event_id")
       case Err(e) => ArgumentError(e)
       case Ok(id) => Invoke(UpdateEvent(id, Get(args, "title"), Get(args, "date"), Get(args, "time"))))
    case "deleteEvent" =>
      (match Require(args, "event_id")
       case Err(e) => ArgumentError(e)
       case Ok(id) => Invoke(DeleteEvent(id)))
    case "findFreeSlot" =>
      (match (Require(args, "date"), Require(args, "duration"))
       case (Err(e), _) => ArgumentError(e)
       case (_, Err(e)) => ArgumentError(e)
       case (Ok(d), Ok(n)) => Invoke(FindFreeSlot(d, n)))
    case "dailySummary" =>
      (match Require(args, "date")
       case Err(e) => ArgumentError(e)
       case Ok(d) => Invoke(DailySummaryCall(d)))
  }

  /** `run_tool(tool_type, args)` */
  function RunTool(toolType: string, args: map<string, Value>): (r: Dispatch)
    ensures r.UnknownTool? <==> toolType !in KnownTags
    ensures r.UnknownTool? ==> r.error == "Unknown tool type: " + toolType
  {
    if toolType !in KnownTags then UnknownTool("Unknown tool type: " + toolType)
    else Handle(toolType, args)
  }

  /** The arguments each tag cannot do without. */
  function RequiredKeys(tag: string): seq<string> {
    match tag
    case "searchEvent" => ["query"]
    case "createEvent" => ["title", "date"]
    case "updateEvent" => ["event_id"]
    case "deleteEvent" => ["event_id"]
    case "findFreeSlot" => ["date", "duration"]
    case "dailySummary" => ["date"]
    case _ => []
  }

  /** Exactly seven tags are known. */
  lemma SevenTags()
    ensures |KnownTags| == 7
  {
  }

  /** A known tag fails exactly when one of its required arguments is missing, and
      then names the first missing one; optional arguments never make it fail. */
  lemma RequiredArguments(tag: string, args: map<string, Value>)
    requires tag in KnownTags
    ensures var r := RunTool(tag, args);
      && (r.ArgumentError? <==> exists k | 0 <= k < |RequiredKeys(tag)| :: RequiredKeys(tag)[k] !in args)
      && (r.ArgumentError? ==>
            exists k | 0 <= k < |RequiredKeys(tag)| ::
              && r.err == MissingKey(RequiredKeys(tag)[k])
              && RequiredKeys(tag)[k] !in args
              && forall j | 0 <= j < k :: RequiredKeys(tag)[j] in args)
  {
    var keys := RequiredKeys(tag);
    var r := RunTool(tag, args);
    if |keys| >= 1 && keys[0] !in args {
      assert r.err == MissingKey(keys[0]);
    } else if |keys| >= 2 && keys[1] !in args {
      assert r.err == MissingKey(keys[1]);
    }
  }

  /** Every argument a handler receives is the one the agent sent under that key, or
      `Null` when the agent sent none. */
  lemma ArgumentsPassedThrough(args: map<string, Value>)
    ensures var r := RunTool("createEvent", args);
      r.Invoke? ==> r.call == CreateEvent(args["title"], args["date"], Get(args, "time"))
    ensures var r := RunTool("updateEvent", args);
      r.Invoke? ==> r.call == UpdateEvent(args["event_id"], Get(args, "title"), Get(args, "date"), Get(args, "time"))
    ensures var r := RunTool("findFreeSlot", args);
      r.Invoke? ==> r.call == FindFreeSlot(args["date"], args["duration"])
    ensures RunTool("getEvent", args) == Invoke(GetEvent(if "date" in args then args["date"] else Null))
    ensures var r := RunTool("searchEvent", args);
      r.Invoke? ==> r.call == SearchEvent(args["query"], SearchDays)
    ensures var r := RunTool("deleteEvent", args);
      r.Invoke? ==> r.call == DeleteEvent(args["event_id"])
    ensures var r := RunTool("dailySummary", args);
      r.Invoke? ==> r.call == DailySummaryCall(args["date"])
  {
  }
}
