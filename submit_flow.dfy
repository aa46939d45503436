/** The form state of the component and its submit flow: the credential and
    the two database ids, the two data slots, the loading flag, the error
    message, the collapsed form, the tree on screen, the browser's local
    storage and the requests sent to the proxy. React state updates are
    applied in the order the handlers issue them; the effects that watch the
    data slots take effect right after a slot changes. What each proxy call returns
    is a parameter. */
module SubmitFlow {
  import opened Wrappers
  import opened Hierarchy

  const MissingKeyMessage: string := "Por favor, insira sua chave da API do Notion."
  const MissingIdsMessage: string := "Por favor, insira os IDs dos bancos de dados de Papéis e Círculos."
  const FetchFailedMessage: string := "Erro ao buscar dados do Notion. Verifique suas credenciais e tente novamente."

  const KeyEntry: string := "notionKey"
  const RolesEntry: string := "rolesDatabaseId"
  const CirclesEntry: string := "circlesDatabaseId"

  /** The parsed body of a successful proxy call, read as the records of the
      database it was asked for. */
  datatype Body = RolesBody(roles: seq<RoleRecord>) | CirclesBody(circles: seq<CircleRecord>)

  /** What one proxy call ends in: a body, or a failure (a status that is not
      2xx, a network error or a body that is not JSON). */
  datatype Fetch = Fetched(body: Body) | Failed

  /** One POST to the proxy, with the fields of its JSON body. */
  datatype Request = Request(databaseId: string, notionKey: string)

  /** The body fits the slot it is stored in. */
  predicate Fits(outcome: Fetch, isRolesData: bool) {
    outcome.Fetched? ==> (outcome.body.RolesBody? <==> isRolesData)
  }

  /** The tree on screen for the two data slots: drawn once both are set. */
  function View(roles: Option<seq<RoleRecord>>, circles: Option<seq<CircleRecord>>): Option<Tree> {
    if roles.Some? && circles.Some? then Some(BuildTree(circles.value, roles.value)) else None
  }

  /** Local storage after the three form fields are written. */
  function Persist(store: map<string, string>, key: string, rolesId: string, circlesId: string): map<string, string> {
    store[KeyEntry := key][RolesEntry := rolesId][CirclesEntry := circlesId]
  }

  /** What the mount effect keeps for a field: the stored value when there is
      one and it is not empty, the current value otherwise. */
  function Restored(store: map<string, string>, entry: string, current: string): string {
    if entry in store && store[entry] != "" then store[entry] else current
  }

  /** Saving and reopening the page: the two database ids come back, the
      credential comes back unless it was empty, and no other entry is
      touched. */
  lemma {:induction false} PersistThenRestore(store: map<string, string>, key: string, rolesId: string, circlesId: string,
                           key0: string, rolesId0: string, circlesId0: string)
    ensures
      var saved := Persist(store, key, rolesId, circlesId);
      && Restored(saved, KeyEntry, key0) == (if key != "" then key else key0)
      && Restored(saved, RolesEntry, rolesId0) == (if rolesId != "" then rolesId else rolesId0)
      && Restored(saved, CirclesEntry, circlesId0) == (if circlesId != "" then circlesId else circlesId0)
      && saved.Keys == store.Keys + {KeyEntry, RolesEntry, CirclesEntry}
      && forall e :: e in store && e != KeyEntry && e != RolesEntry && e != CirclesEntry ==> saved[e] == store[e]
  {
    assert KeyEntry != RolesEntry && KeyEntry != CirclesEntry && RolesEntry != CirclesEntry by {
      assert KeyEntry[0] != RolesEntry[0] && KeyEntry[0] != CirclesEntry[0] && RolesEntry[0] != CirclesEntry[0];
    }
  }

  /** The message left after `handleFetchData` with both ids given: only the
      credential check and the circles fetch decide it, since the circles
      fetch clears whatever the roles fetch reported. */
  function SubmitError(key: string, rolesFailed: bool, circlesFailed: bool): (e: Option<string>)
    ensures e.Some? ==> key == "" || circlesFailed
  {
    if key == "" then Some(MissingKeyMessage)
    else if circlesFailed then Some(FetchFailedMessage)
    else None
  }

  /** As written, a failed roles fetch followed by a successful circles fetch
      leaves no message at all. */
  lemma {:induction false} RolesFailureMessageLost(key: string)
    requires key != ""
    ensures SubmitError(key, true, false) == None
  {
  }

  /** The message a submit should leave: every failure is reported. */
  function IntendedSubmitError(key: string, rolesFailed: bool, circlesFailed: bool): (e: Option<string>)
    ensures e.Some? <==> key == "" || rolesFailed || circlesFailed
    ensures e == None || e == Some(MissingKeyMessage) || e == Some(FetchFailedMessage)
  {
    if key == "" then Some(MissingKeyMessage)
    else if rolesFailed || circlesFailed then Some(FetchFailedMessage)
    else None
  }

  /** The two agree except when only the roles fetch failed. */
  lemma {:induction false} SubmitErrorDiffersOnlyThere(key: string, rolesFailed: bool, circlesFailed: bool)
    ensures SubmitError(key, rolesFailed, circlesFailed) != IntendedSubmitError(key, rolesFailed, circlesFailed)
      <==> key != "" && rolesFailed && !circlesFailed
  {
  }

  class NotionForm {
    var notionKey: string
    var rolesDatabaseId: string
    var circlesDatabaseId: string
    var rolesData: Option<seq<RoleRecord>>
    var circlesData: Option<seq<CircleRecord>>
    var loading: bool
    var error: Option<string>
    var isFormMinimized: bool
    var tree: Option<Tree>
    var storage: map<string, string>
    var requests: seq<Request>

    /** At rest: no call in flight, and the screen shows the tree of the
        current data slots. */
    ghost predicate Valid()
      reads this
    {
      !loading && Drawn()
    }

    /** The screen shows the tree of the current data slots. */
    ghost predicate Drawn()
      reads this
    {
      tree == View(rolesData, circlesData)
    }

    /** The initial state of every slot; `store` is what local storage
        already holds. */
    constructor (store: map<string, string>)
      ensures Valid()
      ensures notionKey == "" && rolesDatabaseId == "" && circlesDatabaseId == ""
      ensures rolesData == None && circlesData == None && tree == None
      ensures !loading && error == None && !isFormMinimized
      ensures storage == store && requests == []
    {
      notionKey, rolesDatabaseId, circlesDatabaseId := "", "", "";
      rolesData, circlesData, tree := None, None, None;
      loading, error, isFormMinimized := false, None, false;
      storage, requests := store, [];
    }

    /** The mount effect: the three fields are read back from storage. */
    method Restore()
      requires Valid()
      modifies this
      ensures Valid()
      ensures notionKey == Restored(storage, KeyEntry, old(notionKey))
      ensures rolesDatabaseId == Restored(storage, RolesEntry, old(rolesDatabaseId))
      ensures circlesDatabaseId == Restored(storage, CirclesEntry, old(circlesDatabaseId))
      ensures rolesData == old(rolesData) && circlesData == old(circlesData) && tree == old(tree)
      ensures error == old(error) && isFormMinimized == old(isFormMinimized)
      ensures storage == old(storage) && requests == old(requests)
    {
      if KeyEntry in storage && storage[KeyEntry] != "" {
        notionKey := storage[KeyEntry];
      }
      if RolesEntry in storage && storage[RolesEntry] != "" {
        rolesDatabaseId := storage[RolesEntry];
      }
      if CirclesEntry in storage && storage[CirclesEntry] != "" {
        circlesDatabaseId := storage[CirclesEntry];
      }
    }

    /** Typing into one of the three inputs. */
    method Edit(key: string, rolesId: string, circlesId: string)
      requires Valid()
      modifies this
      ensures Valid()
      ensures notionKey == key && rolesDatabaseId == rolesId && circlesDatabaseId == circlesId
      ensures rolesData == old(rolesData) && circlesData == old(circlesData) && tree == old(tree)
      ensures error == old(error) && isFormMinimized == old(isFormMinimized)
      ensures storage == old(storage) && requests == old(requests)
    {
      notionKey, rolesDatabaseId, circlesDatabaseId := key, rolesId, circlesId;
    }

    /** The floating button that shows or hides the form. */
    method ToggleForm()
      requires Valid()
      modifies this
      ensures Valid()
      ensures isFormMinimized == !old(isFormMinimized)
      ensures notionKey == old(notionKey) && rolesDatabaseId == old(rolesDatabaseId)
      ensures circlesDatabaseId == old(circlesDatabaseId)
      ensures rolesData == old(rolesData) && circlesData == old(circlesData) && tree == old(tree)
      ensures error == old(error) && storage == old(storage) && requests == old(requests)
    {
      isFormMinimized := !isFormMinimized;
    }

    /** `fetchDataFromNotion(databaseId, isRolesData)`, ending as `outcome`
        says. An empty credential only sets the message. Otherwise one request
        goes out, the message is cleared, a body fills its slot (and the
        effects redraw the tree and collapse the form once both slots are
        set), a failure sets the message and leaves the slot alone, and the
        loading flag ends false either way. */
    method FetchDataFromNotion(databaseId: string, isRolesData: bool, outcome: Fetch)
      requires Valid()
      requires Fits(outcome, isRolesData)
      modifies this
      ensures Valid()
      ensures notionKey == old(notionKey) && rolesDatabaseId == old(rolesDatabaseId)
      ensures circlesDatabaseId == old(circlesDatabaseId) && storage == old(storage)
      ensures old(notionKey) == "" ==>
        && error == Some(MissingKeyMessage) && requests == old(requests)
        && rolesData == old(rolesData) && circlesData == old(circlesData)
        && tree == old(tree) && isFormMinimized == old(isFormMinimized)
      ensures old(notionKey) != "" ==>
        && requests == old(requests) + [Request(databaseId, notionKey)]
        && error == (if outcome.Failed? then Some(FetchFailedMessage) else None)
        && rolesData == (if isRolesData && outcome.Fetched? then Some(outcome.body.roles) else old(rolesData))
        && circlesData == (if !isRolesData && outcome.Fetched? then Some(outcome.body.circles) else old(circlesData))
        && isFormMinimized == (old(isFormMinimized) || (outcome.Fetched? && rolesData.Some? && circlesData.Some?))
    {
      if notionKey == "" {
        error := Some(MissingKeyMessage);
        return;
      }
      loading := true;
      error := None;
      requests := requests + [Request(databaseId, notionKey)];
      match outcome {
        case Fetched(body) =>
          StoreBody(isRolesData, body);
        case Failed =>
          error := Some(FetchFailedMessage);
      }
      loading := false;
    }

    /** `setRolesData(data)` or `setCirclesData(data)`, followed by the two
        effects that watch both slots: once both are set the tree is redrawn
        and the form collapsed. */
    method StoreBody(isRolesData: bool, body: Body)
      requires Drawn()
      requires body.RolesBody? <==> isRolesData
      modifies this
      ensures Drawn()
      ensures rolesData == (if isRolesData then Some(body.roles) else old(rolesData))
      ensures circlesData == (if isRolesData then old(circlesData) else Some(body.circles))
      ensures isFormMinimized == (old(isFormMinimized) || (rolesData.Some? && circlesData.Some?))
      ensures notionKey == old(notionKey) && rolesDatabaseId == old(rolesDatabaseId)
      ensures circlesDatabaseId == old(circlesDatabaseId) && loading == old(loading)
      ensures error == old(error) && storage == old(storage) && requests == old(requests)
    {
      if isRolesData {
        rolesData := Some(body.roles);
      } else {
        circlesData := Some(body.circles);
      }
      if rolesData.Some? && circlesData.Some? {
        tree := View(rolesData, circlesData);
        isFormMinimized := true;
      }
    }

    /** `handleFetchData`, as written. With an id missing only the message is
        set. Otherwise the three fields are saved, and the roles and then the
        circles are fetched, the second whatever the first did. */
    method HandleFetchData(rolesOutcome: Fetch, circlesOutcome: Fetch)
      requires Valid()
      requires Fits(rolesOutcome, true) && Fits(circlesOutcome, false)
      modifies this
      ensures Valid()
      ensures notionKey == old(notionKey) && rolesDatabaseId == old(rolesDatabaseId)
      ensures circlesDatabaseId == old(circlesDatabaseId)
      ensures old(rolesDatabaseId) == "" || old(circlesDatabaseId) == "" ==>
        && error == Some(MissingIdsMessage)
        && storage == old(storage) && requests == old(requests)
        && rolesData == old(rolesData) && circlesData == old(circlesData)
        && tree == old(tree) && isFormMinimized == old(isFormMinimized)
      ensures old(rolesDatabaseId) != "" && old(circlesDatabaseId) != "" ==>
        var sent := notionKey != "";
        && storage == Persist(old(storage), notionKey, rolesDatabaseId, circlesDatabaseId)
        && requests == old(requests) +
             (if sent then [Request(rolesDatabaseId, notionKey), Request(circlesDatabaseId, notionKey)] else [])
        && error == SubmitError(notionKey, rolesOutcome.Failed?, circlesOutcome.Failed?)
        && rolesData == (if sent && rolesOutcome.Fetched? then Some(rolesOutcome.body.roles) else old(rolesData))
        && circlesData == (if sent && circlesOutcome.Fetched? then Some(circlesOutcome.body.circles) else old(circlesData))
        && isFormMinimized == (old(isFormMinimized) ||
             (sent && (rolesOutcome.Fetched? || circlesOutcome.Fetched?) && rolesData.Some? && circlesData.Some?))
    {
      if rolesDatabaseId == "" || circlesDatabaseId == "" {
        error := Some(MissingIdsMessage);
        return;
      }
      storage := storage[KeyEntry := notionKey];
      storage := storage[RolesEntry := rolesDatabaseId];
      storage := storage[CirclesEntry := circlesDatabaseId];
      FetchDataFromNotion(rolesDatabaseId, true, rolesOutcome);
      FetchDataFromNotion(circlesDatabaseId, false, circlesOutcome);
    }

    /** `handleFetchData` as evidently intended: after a failed roles fetch
        the circles fetch is not made, so the failure stays reported and the
        circles slot is left alone. */
    method HandleFetchDataFixed(rolesOutcome: Fetch, circlesOutcome: Fetch)
      requires Valid()
      requires Fits(rolesOutcome, true) && Fits(circlesOutcome, false)
      modifies this
      ensures Valid()
      ensures notionKey == old(notionKey) && rolesDatabaseId == old(rolesDatabaseId)
      ensures circlesDatabaseId == old(circlesDatabaseId)
      ensures old(rolesDatabaseId) == "" || old(circlesDatabaseId) == "" ==>
        && error == Some(MissingIdsMessage)
        && storage == old(storage) && requests == old(requests)
        && rolesData == old(rolesData) && circlesData == old(circlesData)
        && tree == old(tree) && isFormMinimized == old(isFormMinimized)
      ensures old(rolesDatabaseId) != "" && old(circlesDatabaseId) != "" ==>
        var sent := notionKey != "";
        var second := sent && rolesOutcome.Fetched?;
        && storage == Persist(old(storage), notionKey, rolesDatabaseId, circlesDatabaseId)
        && requests == old(requests) + (if sent then [Request(rolesDatabaseId, notionKey)] else [])
                                     + (if second then [Request(circlesDatabaseId, notionKey)] else [])
        && error == IntendedSubmitError(notionKey, rolesOutcome.Failed?, circlesOutcome.Failed?)
        && rolesData == (if sent && rolesOutcome.Fetched? then Some(rolesOutcome.body.roles) else old(rolesData))
        && circlesData == (if second && circlesOutcome.Fetched? then Some(circlesOutcome.body.circles) else old(circlesData))
        && isFormMinimized == (old(isFormMinimized) ||
             (((sent && rolesOutcome.Fetched?) || (second && circlesOutcome.Fetched?)) && rolesData.Some? && circlesData.Some?))
    {
      if rolesDatabaseId == "" || circlesDatabaseId == "" {
        error := Some(MissingIdsMessage);
        return;
      }
      storage := storage[KeyEntry := notionKey];
      storage := storage[RolesEntry := rolesDatabaseId];
      storage := storage[CirclesEntry := circlesDatabaseId];
      FetchDataFromNotion(rolesDatabaseId, true, rolesOutcome);
      if error.None? {
        FetchDataFromNotion(circlesDatabaseId, false, circlesOutcome);
      }
    }
  }

  /** A first submit whose roles fetch fails and whose circles fetch succeeds:
      no message is shown and no tree is drawn. */
  method LostRolesFailure(key: string, rolesId: string, circlesId: string, circles: seq<CircleRecord>)
    returns (shown: Option<string>, drawn: Option<Tree>)
    requires key != "" && rolesId != "" && circlesId != ""
    ensures shown == None && drawn == None
  {
    var form := new NotionForm(map[]);
    form.Edit(key, rolesId, circlesId);
    form.HandleFetchData(Failed, Fetched(CirclesBody(circles)));
    shown, drawn := form.error, form.tree;
  }

  /** The same submit with the corrected flow reports the failure. */
  method ReportedRolesFailure(key: string, rolesId: string, circlesId: string, circles: seq<CircleRecord>)
    returns (shown: Option<string>, drawn: Option<Tree>)
    requires key != "" && rolesId != "" && circlesId != ""
    ensures shown == Some(FetchFailedMessage) && drawn == None
  {
    var form := new NotionForm(map[]);
    form.Edit(key, rolesId, circlesId);
    form.HandleFetchDataFixed(Failed, Fetched(CirclesBody(circles)));
    shown, drawn := form.error, form.tree;
  }

  /** A second submit, made after reopening the collapsed form, whose roles
      fetch succeeds and whose circles fetch fails: the new roles are drawn
      under the circles of the first submit, and the form collapses again
      when the roles arrive, so the failure message set in the `error` slot
      sits inside a hidden form. */
  method MixedTreeOnResubmit(key: string, rolesId: string, circlesId: string,
                             roles1: seq<RoleRecord>, circles1: seq<CircleRecord>, roles2: seq<RoleRecord>)
    returns (message: Option<string>, drawn: Option<Tree>, collapsed: bool)
    requires key != "" && rolesId != "" && circlesId != ""
    ensures message == Some(FetchFailedMessage) && drawn == Some(BuildTree(circles1, roles2))
    ensures collapsed
  {
    var form := new NotionForm(map[]);
    form.Edit(key, rolesId, circlesId);
    form.HandleFetchData(Fetched(RolesBody(roles1)), Fetched(CirclesBody(circles1)));
    form.ToggleForm();
    form.HandleFetchData(Fetched(RolesBody(roles2)), Failed);
    message, drawn, collapsed := form.error, form.tree, form.isFormMinimized;
  }
}
