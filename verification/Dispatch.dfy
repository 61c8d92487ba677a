/** How an exposed thing picks the handler of a request, as a function of the current handlers and, equivalently,
    of the history of handler settings. */
module Dispatch {
  import opened Wrappers
  import opened Things

  datatype Kind = Action | PropertyWrite

  /** The two handler maps of an exposed thing; both are nil once it is destroyed. A nil handler can be stored. */
  datatype Handlers<H> = Handlers(actions: Option<map<string, Option<H>>>, writes: Option<map<string, Option<H>>>)

  datatype Invocation<H> = Invocation(kind: Kind, handler: H, name: string, value: InteractionOutput)

  function Lookup<H>(m: Option<map<string, Option<H>>>, name: string): Option<H> {
    if m.Some? && name in m.value then m.value[name] else None
  }

  /** The handler of the name, else the default handler, which has the name "". */
  function Pick<H>(m: Option<map<string, Option<H>>>, name: string): Option<H> {
    if Lookup(m, name).Some? then Lookup(m, name) else Lookup(m, "")
  }

  function Invoke<H>(kind: Kind, handler: Option<H>, name: string, value: InteractionOutput): Option<Invocation<H>> {
    if handler.None? then None else Some(Invocation(kind, handler.value, name, value))
  }

  /** HandleActionRequest */
  function HandleRequest<H>(td: ThingTD, h: Handlers<H>, name: string, message: Payload): Option<Invocation<H>> {
    if name in td.actions then
      Invoke(Action, Pick(h.actions, name), name, FromJson(message, td.actions[name]))
    else
      HandlePropertyWrite(td, h, name, message)
  }

  /** handlePropertyWriteRequest */
  function HandlePropertyWrite<H>(td: ThingTD, h: Handlers<H>, name: string, message: Payload): Option<Invocation<H>> {
    if h.writes.None? then None
    else if message.Raw? then None
    else if name !in td.properties then None
    else if td.properties[name].readOnly then None
    else Invoke(PropertyWrite, Pick(h.writes, name), name, FromValue(message.value, td.properties[name]))
  }

  // ---- Histories ----

  /** Setting a handler after Destroy panics and changes nothing. */
  datatype Setting<H> = SetHandler(kind: Kind, name: string, handler: Option<H>) | Destroy

  function Set<H>(m: Option<map<string, Option<H>>>, name: string, handler: Option<H>): Option<map<string, Option<H>>> {
    if m.None? then None else Some(m.value[name := handler])
  }

  function SettingStep<H>(h: Handlers<H>, s: Setting<H>): Handlers<H> {
    match s
    case Destroy => Handlers(None, None)
    case SetHandler(kind, name, handler) =>
      if kind == Action then h.(actions := Set(h.actions, name, handler))
      else h.(writes := Set(h.writes, name, handler))
  }

  function HandlersAfter<H>(history: seq<Setting<H>>): Handlers<H> {
    if history == [] then Handlers(Some(map[]), Some(map[]))
    else SettingStep(HandlersAfter(history[..|history| - 1]), history[|history| - 1])
  }

  predicate Destroyed<H>(history: seq<Setting<H>>) {
    exists i :: 0 <= i < |history| && history[i].Destroy?
  }

  /** The handler set last for this kind and name. */
  function Latest<H>(history: seq<Setting<H>>, kind: Kind, name: string): Option<H> {
    if history == [] then None
    else
      var s := history[|history| - 1];
      if s.SetHandler? && s.kind == kind && s.name == name then s.handler
      else Latest(history[..|history| - 1], kind, name)
  }

  /** The handler a request has to reach: the latest one for the name, else the latest default. */
  function Responsible<H>(history: seq<Setting<H>>, kind: Kind, name: string): Option<H> {
    if Destroyed(history) then None
    else if Latest(history, kind, name).Some? then Latest(history, kind, name)
    else Latest(history, kind, "")
  }

  lemma {:induction false} HandlersAreLatest<H>(history: seq<Setting<H>>, name: string)
    ensures var h := HandlersAfter(history);
            && (h.actions.None? <==> Destroyed(history)) && (h.writes.None? <==> Destroyed(history))
            && Lookup(h.actions, name) == (if Destroyed(history) then None else Latest(history, Action, name))
            && Lookup(h.writes, name) == (if Destroyed(history) then None else Latest(history, PropertyWrite, name))
  {
    if history != [] {
      var front, s := history[..|history| - 1], history[|history| - 1];
      HandlersAreLatest(front, name);
      assert Destroyed(history) <==> Destroyed(front) || s.Destroy? by {
        if Destroyed(front) {
          var i :| 0 <= i < |front| && front[i].Destroy?;
          assert history[i].Destroy?;
        }
      }
    }
  }

  /** Setting `i` is the last one made for this kind and name. */
  predicate LastSetting<H>(history: seq<Setting<H>>, kind: Kind, name: string, i: nat)
    requires i < |history|
  {
    && history[i].SetHandler? && history[i].kind == kind && history[i].name == name
    && forall j :: i < j < |history| ==> !(history[j].SetHandler? && history[j].kind == kind && history[j].name == name)
  }

  /** `Latest` is what the last setting says, nil if that is nil or if there is none. */
  lemma {:induction false} LatestExactly<H>(history: seq<Setting<H>>, kind: Kind, name: string, handler: H)
    ensures Latest(history, kind, name) == Some(handler)
        <==> exists i: nat ::
               i < |history| && LastSetting(history, kind, name, i) && history[i].handler == Some(handler)
  {
    if history != [] {
      var front, n := history[..|history| - 1], |history| - 1;
      LatestExactly(front, kind, name, handler);
      if history[n].SetHandler? && history[n].kind == kind && history[n].name == name {
        assert LastSetting(history, kind, name, n);
        assert forall i: nat :: i < n ==> !LastSetting(history, kind, name, i);
      } else {
        forall i: nat | i < n
          ensures LastSetting(front, kind, name, i) <==> LastSetting(history, kind, name, i)
        {
          assert forall j :: i <= j < n ==> front[j] == history[j];
        }
      }
    }
  }

  /** The handler of `name` that counts, if any: the one of its last setting, or if that is nil or missing, the one of
      the last default setting; nobody after Destroy. */
  ghost predicate Answers<H>(history: seq<Setting<H>>, kind: Kind, name: string, handler: H) {
    && (forall i :: 0 <= i < |history| ==> !history[i].Destroy?)
    && ((exists i: nat :: i < |history| && LastSetting(history, kind, name, i) && history[i].handler == Some(handler))
        || ((forall i: nat :: i < |history| && LastSetting(history, kind, name, i) ==> history[i].handler == None)
            && exists i: nat ::
                 i < |history| && LastSetting(history, kind, "", i) && history[i].handler == Some(handler)))
  }

  lemma {:induction false} ResponsibleAnswers<H>(history: seq<Setting<H>>, kind: Kind, name: string, handler: H)
    ensures Responsible(history, kind, name) == Some(handler) <==> Answers(history, kind, name, handler)
  {
    LatestExactly(history, kind, name, handler);
    LatestExactly(history, kind, "", handler);
    if i: nat :| i < |history| && LastSetting(history, kind, name, i) && history[i].handler.Some? {
      LatestExactly(history, kind, name, history[i].handler.value);
    }
    if Latest(history, kind, name).Some? {
      LatestExactly(history, kind, name, Latest(history, kind, name).value);
    }
  }

  /** For every history and request: an action calls the responsible action handler with its name and data and nobody
      else; any other name calls the responsible write handler with its value if it is a writable property and the
      message is JSON, and is dropped otherwise. */
  lemma {:induction false} DispatchByHistory<H>(td: ThingTD, history: seq<Setting<H>>, name: string, message: Payload)
    ensures var r := HandleRequest(td, HandlersAfter(history), name, message);
            if name in td.actions then
              match Responsible(history, Action, name)
              case None => r == None
              case Some(handler) =>
                r == Some(Invocation(Action, handler, name, FromJson(message, td.actions[name])))
            else if name in td.properties && !td.properties[name].readOnly && message.Encoded? then
              match Responsible(history, PropertyWrite, name)
              case None => r == None
              case Some(handler) =>
                r == Some(Invocation(PropertyWrite, handler, name, FromValue(message.value, td.properties[name])))
            else
              r == None
  {
    HandlersAreLatest(history, name);
    HandlersAreLatest(history, "");
  }

  /** So exactly which handler an action calls, in terms of the settings made. */
  lemma {:induction false} ActionCalls<H>(td: ThingTD, history: seq<Setting<H>>, name: string, message: Payload,
                                          handler: H)
    requires name in td.actions
    ensures HandleRequest(td, HandlersAfter(history), name, message)
            == Some(Invocation(Action, handler, name, FromJson(message, td.actions[name])))
        <==> Answers(history, Action, name, handler)
  {
    DispatchByHistory(td, history, name, message);
    ResponsibleAnswers(history, Action, name, handler);
  }

  /** And which one a property write calls. */
  lemma {:induction false} WriteCalls<H>(td: ThingTD, history: seq<Setting<H>>, name: string, value: Json, handler: H)
    requires name !in td.actions && name in td.properties && !td.properties[name].readOnly
    ensures HandleRequest(td, HandlersAfter(history), name, Encoded(value))
            == Some(Invocation(PropertyWrite, handler, name, FromValue(value, td.properties[name])))
        <==> Answers(history, PropertyWrite, name, handler)
  {
    DispatchByHistory(td, history, name, Encoded(value));
    ResponsibleAnswers(history, PropertyWrite, name, handler);
  }

  /** Nothing is invoked once the thing is destroyed, whatever is set afterwards. */
  lemma NothingAfterDestroy<H>(td: ThingTD, before: seq<Setting<H>>, after: seq<Setting<H>>, name: string,
                               message: Payload)
    ensures HandleRequest(td, HandlersAfter(before + [Destroy] + after), name, message) == None
  {
    var history := before + [Destroy] + after;
    assert history[|before|].Destroy?;
    DispatchByHistory(td, history, name, message);
  }
}
