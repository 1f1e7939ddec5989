/** The Tair deletion run alone against the simulator. */
module TairWorld {
  import opened Wrappers
  import opened Lifecycle
  import W = World
  import opened TairDelete

  type State = W.WorldState

  function StatusOf(s: W.TairStatus): Status {
    match s
    case TairCreating => Creating
    case TairNormal => Normal
    case TairReleased => Released
    case TairDestroyed => Unknown
  }

  function OverviewItems(rows: seq<W.TairRow>): (items: seq<OverviewItem>)
    ensures |items| == |rows|
    ensures forall i | 0 <= i < |rows| ::
      items[i] == OverviewItem(Some(rows[i].instanceId), Some(rows[i].instanceName), StatusOf(rows[i].status))
  {
    seq(|rows|, i requires 0 <= i < |rows| =>
      OverviewItem(Some(rows[i].instanceId), Some(rows[i].instanceName), StatusOf(rows[i].status)))
  }

  function ListItems(rows: seq<W.TairRow>): (items: seq<ListItem>)
    ensures |items| == |rows|
    ensures forall i | 0 <= i < |rows| :: items[i] == ListItem(Some(rows[i].instanceId), Some(rows[i].instanceName))
  {
    seq(|rows|, i requires 0 <= i < |rows| => ListItem(Some(rows[i].instanceId), Some(rows[i].instanceName)))
  }

  function Overview(w: State, id: nat): (State, Answer<seq<OverviewItem>>) {
    var (v, rows) := W.DescribeTair(w, true, Some(id));
    (v, Value(OverviewItems(rows)))
  }

  function Detail(w: State, id: nat): (State, Answer<Option<Instance>>) {
    var (v, answer) := W.DescribeTairAttribute(w, id);
    (v, match answer
        case Fault(e) => Fault(e)
        case Value(t) => Value(Some(Instance(Some(id), Some(t.name), StatusOf(t.status), t.releaseProtection))))
  }

  function List(w: State): (State, Answer<seq<ListItem>>) {
    var (v, rows) := W.DescribeTair(w, false, None);
    (v, Value(ListItems(rows)))
  }

  function Disable(w: State, id: nat): (State, Answer<()>) {
    W.ModifyTairAttribute(w, id, None, Some(false))
  }

  function Simulator(): TairApi<State> {
    TairApi(Overview, Detail, List, Disable, W.DeleteTair, W.DestroyTair)
  }

  // ---- What reads change ----

  /** A read may count itself and settle a creation; it changes nothing else of a record. */
  predicate AtMostPromoted(before: W.TairRecord, after: W.TairRecord) {
    || after == before
    || (&& before.status.TairCreating? && (after.status.TairCreating? || after.status.TairNormal?)
        && after == before.(status := after.status, describes := after.describes))
  }

  /** Two states that differ in read counts, settled creations and used-up omissions, and perhaps in `id`. */
  ghost predicate AlikeBut(w: State, v: State, id: nat) {
    && v.settings == w.settings && v.ids == w.ids && v.rds == w.rds && v.net == w.net
    && v.tair.records.Keys == w.tair.records.Keys
    && forall j | j in w.tair.records && j != id :: AtMostPromoted(w.tair.records[j], v.tair.records[j])
  }

  ghost predicate Alike(w: State, v: State, id: nat) {
    AlikeBut(w, v, id) && (id in w.tair.records ==> AtMostPromoted(w.tair.records[id], v.tair.records[id]))
  }

  /** Ids count up, so no record is newer than the counter; `W.Valid` includes this. */
  ghost predicate Issued(w: State) {
    forall i | i in w.tair.records :: i <= w.ids
  }

  /** Another listed instance bears the name. */
  ghost predicate NamedElsewhere(w: State, id: nat, name: string) {
    exists j | j in w.tair.records :: j != id && W.TairLive(w, j) && w.tair.records[j].name == name
  }

  /** The list shows some instance of the name, `id` or another. */
  ghost predicate ListShows(w: State, id: nat, name: string) {
    NamedElsewhere(w, id, name) || (W.TairLive(w, id) && w.tair.records[id].name == name)
  }

  /** `k` is the first listed instance of the name. */
  ghost predicate FirstNamed(w: State, k: nat, name: string) {
    && W.TairLive(w, k) && w.tair.records[k].name == name
    && forall j: nat | j < k && W.TairLive(w, j) :: w.tair.records[j].name != name
  }

  function Protected(w: State, id: nat): bool
    requires id in w.tair.records
  {
    w.tair.records[id].releaseProtection
  }

  /**
   What an observation takes for the instance: itself when its detail is read, else the first listed one of the
   name, with that one's protection.
   */
  ghost predicate FoundAs(w: State, raw: Instance, id: nat, name: string) {
    && raw.instanceId.Some? && raw.instanceId.value in w.tair.records && !DeletingOrReleased(raw)
    && raw.protected == Protected(w, raw.instanceId.value)
    && if W.TairLive(w, id) && w.tair.readOmissions == 0 then raw.instanceId.value == id
       else FirstNamed(w, raw.instanceId.value, name)
  }

  function Status(w: State, id: nat): W.TairStatus
    requires id in w.tair.records
  {
    w.tair.records[id].status
  }

  lemma AlikeCompose(w: State, v: State, u: State, id: nat)
    requires AlikeBut(w, v, id) && AlikeBut(v, u, id)
    ensures AlikeBut(w, u, id)
    ensures Alike(w, v, id) && Alike(v, u, id) ==> Alike(w, u, id)
  {
    forall j | j in w.tair.records && j != id
      ensures AtMostPromoted(w.tair.records[j], u.tair.records[j])
    {
      assert AtMostPromoted(w.tair.records[j], v.tair.records[j]);
      assert AtMostPromoted(v.tair.records[j], u.tair.records[j]);
    }
  }

  lemma AlikeKeepsNames(w: State, v: State, id: nat, name: string)
    requires AlikeBut(w, v, id)
    ensures NamedElsewhere(v, id, name) == NamedElsewhere(w, id, name)
  {
    forall j | j in w.tair.records && j != id
      ensures W.TairLive(v, j) == W.TairLive(w, j) && v.tair.records[j].name == w.tair.records[j].name
    {
      assert AtMostPromoted(w.tair.records[j], v.tair.records[j]);
    }
  }

  lemma AlikeKeepsListed(w: State, v: State, id: nat, name: string)
    requires Alike(w, v, id)
    ensures ListShows(v, id, name) == ListShows(w, id, name)
  {
    AlikeKeepsNames(w, v, id, name);
  }

  lemma AlikeKeepsFirst(w: State, v: State, id: nat, k: nat, name: string)
    requires Alike(w, v, id)
    ensures FirstNamed(v, k, name) == FirstNamed(w, k, name)
    ensures k in w.tair.records ==> Protected(v, k) == Protected(w, k)
  {
    forall j | j in w.tair.records
      ensures W.TairLive(v, j) == W.TairLive(w, j) && v.tair.records[j].name == w.tair.records[j].name
      ensures Protected(v, j) == Protected(w, j)
    {
      assert AtMostPromoted(w.tair.records[j], v.tair.records[j]);
    }
  }

  /** The overview of one id is its row, or nothing. */
  lemma {:induction false} OneRow(s: W.Settings, tair: map<nat, W.TairRecord>, id: nat, bound: nat)
    ensures W.TairRows(s, tair, true, Some(id), bound) ==
            if id <= bound && id in tair && !tair[id].status.TairDestroyed?
            then [W.TairRow(id, tair[id].name, W.PromoteTair(s, tair[id]).status)]
            else []
    decreases bound
  {
    if bound > 0 {
      OneRow(s, tair, id, bound - 1);
    }
  }

  /** The list shows exactly the live records. */
  lemma {:induction false} ListedAreLive(w: State, bound: nat)
    ensures forall i | 0 <= i < |W.TairRows(w.settings, w.tair.records, false, None, bound)| ::
              var r := W.TairRows(w.settings, w.tair.records, false, None, bound)[i];
              W.TairLive(w, r.instanceId) && w.tair.records[r.instanceId].name == r.instanceName
    ensures forall j: nat | W.TairLive(w, j) && j <= bound ::
              exists i | 0 <= i < |W.TairRows(w.settings, w.tair.records, false, None, bound)| ::
                var r := W.TairRows(w.settings, w.tair.records, false, None, bound)[i];
                r.instanceId == j && r.instanceName == w.tair.records[j].name
    decreases bound
  {
    var rows := W.TairRows(w.settings, w.tair.records, false, None, bound);
    var before := if bound == 0 then [] else W.TairRows(w.settings, w.tair.records, false, None, bound - 1);
    if bound > 0 {
      ListedAreLive(w, bound - 1);
    }
    forall j: nat | W.TairLive(w, j) && j <= bound
      ensures exists i | 0 <= i < |rows| :: rows[i].instanceId == j && rows[i].instanceName == w.tair.records[j].name
    {
      if j == bound {
        assert rows[|rows| - 1].instanceId == j;
      } else {
        var i :| 0 <= i < |before| && before[i].instanceId == j && before[i].instanceName == w.tair.records[j].name;
        assert rows[i] == before[i];
      }
    }
  }

  /** The simulator's overview of an id holds no other row, so a deletion destroys no other instance. */
  lemma SimulatorOwnRows(id: nat)
    ensures OwnRows(Simulator(), id)
  {
    forall w: State, i | Overview(w, id).1.Value? && i in Overview(w, id).1.value
      ensures i.instanceId == Some(id)
    {
      OneRow(w.settings, w.tair.records, id, w.ids);
    }
  }

  lemma OverviewSees(w: State, id: nat, name: string)
    requires Issued(w)
    ensures var (v, answer) := Overview(w, id);
            && answer.Value? && Alike(w, v, id) && v.tair.readOmissions == w.tair.readOmissions
            && PresenceFromOverview(answer.value, id, name) ==
                 if id !in w.tair.records || Status(w, id).TairDestroyed? then Absent
                 else if Status(w, id).TairReleased? then InRecycleBin(id)
                 else Visible(id)
  {
    OneRow(w.settings, w.tair.records, id, w.ids);
  }

  lemma DetailSees(w: State, id: nat, name: string)
    ensures var (v, answer) := GetById(Simulator(), w, id, name);
            && answer.Value? && Alike(w, v, id)
            && (!W.TairLive(w, id) ==> answer.value.None? && v == w)
            && (W.TairLive(w, id) && w.tair.readOmissions > 0 ==>
                  answer.value.None? && v.tair.readOmissions == w.tair.readOmissions - 1)
            && (W.TairLive(w, id) && w.tair.readOmissions == 0 ==>
                  && answer.value.Some? && answer.value.value.instanceId == Some(id)
                  && answer.value.value.protected == Protected(w, id)
                  && !DeletingOrReleased(answer.value.value) && v.tair.readOmissions == 0)
  {
  }

  function Named(items: seq<ListItem>, name: string): Option<ListItem> {
    Find(items, (i: ListItem) => i.instanceName == Some(name))
  }

  lemma {:induction false} FindsFirst<T(!new)>(items: seq<T>, test: T -> bool)
    ensures Find(items, test).Some? ==>
              exists i :: && 0 <= i < |items| && items[i] == Find(items, test).value
                          && forall j | 0 <= j < i :: !test(items[j])
  {
    if items != [] && !test(items[0]) && Find(items, test).Some? {
      FindsFirst(items[1..], test);
      var i :| && 0 <= i < |items[1..]| && items[1..][i] == Find(items, test).value
               && forall j | 0 <= j < i :: !test(items[1..][j]);
      forall j | 0 <= j < i + 1
        ensures !test(items[j])
      {
        assert j > 0 ==> items[j] == items[1..][j - 1];
      }
      assert items[i + 1] == Find(items, test).value;
    }
  }

  ghost predicate Ascending(rows: seq<W.TairRow>, bound: nat) {
    && (forall i | 0 <= i < |rows| :: rows[i].instanceId <= bound)
    && forall i, j | 0 <= i < j < |rows| :: rows[i].instanceId < rows[j].instanceId
  }

  /** The list is in the order of the ids. */
  lemma {:induction false} RowsAscend(w: State, bound: nat)
    ensures Ascending(W.TairRows(w.settings, w.tair.records, false, None, bound), bound)
    decreases bound
  {
    if bound > 0 {
      RowsAscend(w, bound - 1);
    }
  }

  /** Looking a name up in the list finds the first live record of that name, or there is none. */
  lemma NamedIsLive(w: State, name: string)
    requires Issued(w) && w.tair.readOmissions == 0
    ensures var named := Named(List(w).1.value, name);
            && (named.Some? ==> named.value.instanceId.Some? && FirstNamed(w, named.value.instanceId.value, name))
            && (named.None? ==> forall j: nat | W.TairLive(w, j) :: w.tair.records[j].name != name)
  {
    var rows := W.TairRows(w.settings, w.tair.records, false, None, w.ids);
    var items := List(w).1.value;
    assert items == ListItems(rows);
    var test := (i: ListItem) => i.instanceName == Some(name);
    var named := Named(items, name);
    assert named == Find(items, test);
    if named.Some? {
      FindsFirst(items, test);
      var i :| 0 <= i < |rows| && items[i] == named.value && forall j | 0 <= j < i :: !test(items[j]);
      FirstRow(w, rows, i, name);
    } else {
      NoRow(w, rows, name);
    }
  }

  lemma NoRow(w: State, rows: seq<W.TairRow>, name: string)
    requires Issued(w) && rows == W.TairRows(w.settings, w.tair.records, false, None, w.ids)
    requires Named(ListItems(rows), name).None?
    ensures forall j: nat | W.TairLive(w, j) :: w.tair.records[j].name != name
  {
    ListedAreLive(w, w.ids);
    forall j: nat | W.TairLive(w, j)
      ensures w.tair.records[j].name != name
    {
      var i :| 0 <= i < |rows| && rows[i].instanceId == j && rows[i].instanceName == w.tair.records[j].name;
      assert ListItems(rows)[i] in ListItems(rows);
    }
  }

  lemma FirstRow(w: State, rows: seq<W.TairRow>, i: nat, name: string)
    requires Issued(w) && rows == W.TairRows(w.settings, w.tair.records, false, None, w.ids)
    requires i < |rows| && rows[i].instanceName == name && forall j | 0 <= j < i :: rows[j].instanceName != name
    ensures FirstNamed(w, rows[i].instanceId, name)
  {
    ListedAreLive(w, w.ids);
    RowsAscend(w, w.ids);
    var k := rows[i].instanceId;
    assert W.TairLive(w, k) && w.tair.records[k].name == name;
    forall j: nat | j < k && W.TairLive(w, j)
      ensures w.tair.records[j].name != name
    {
      var h :| 0 <= h < |rows| && rows[h].instanceId == j && rows[h].instanceName == w.tair.records[j].name;
      assert h < i;
    }
  }

  lemma ListKeeps(w: State, id: nat)
    ensures var v := List(w).0;
            && Alike(w, v, id)
            && v.tair.readOmissions == (if w.tair.readOmissions > 0 then w.tair.readOmissions - 1 else 0)
    ensures w.tair.readOmissions > 0 ==> List(w).1 == Value([])
    ensures List(w).1.Value?
    ensures w.tair.readOmissions == 0 ==> forall j: nat :: W.TairLive(List(w).0, j) == W.TairLive(w, j)
  {
  }

  ghost predicate ListedAs(w: State, raw: Instance, name: string) {
    && raw.instanceId.Some? && !DeletingOrReleased(raw)
    && FirstNamed(w, raw.instanceId.value, name) && raw.protected == Protected(w, raw.instanceId.value)
  }

  lemma ListSees(w: State, id: nat, name: string)
    requires Issued(w)
    ensures var (v, answer) := FindByName(Simulator(), w, name);
            && answer.Value? && Alike(w, v, id)
            && (w.tair.readOmissions > 0 ==> answer.value.None? && v.tair.readOmissions == w.tair.readOmissions - 1)
            && (w.tair.readOmissions == 0 ==>
                  && v.tair.readOmissions == 0
                  && (answer.value.Some? <==> ListShows(w, id, name))
                  && (answer.value.Some? ==> ListedAs(w, answer.value.value, name)))
  {
    var (v, listed) := List(w);
    ListKeeps(w, id);
    var named := Named(listed.value, name);
    if w.tair.readOmissions > 0 {
      assert named.None?;
    } else {
      NamedIsLive(w, name);
      if named.Some? {
        var found := named.value.instanceId.value;
        DetailSees(v, found, name);
        AlikeKeepsFirst(w, v, id, found, name);
        SeenAlike(v, found, name, id);
        AlikeCompose(w, v, GetById(Simulator(), v, found, name).0, id);
      }
    }
  }

  /** Reading one record leaves the state alike from any other record's point of view too. */
  lemma SeenAlike(w: State, found: nat, name: string, id: nat)
    ensures Alike(w, GetById(Simulator(), w, found, name).0, id)
  {
  }

  // ---- One observation ----

  /** What one observation of a live, released or destroyed instance sees, and what it uses up. */
  ghost predicate Sees(w: State, v: State, p: Presence, id: nat, name: string) {
    var o, left := w.tair.readOmissions, v.tair.readOmissions;
    && Issued(v) && id in w.tair.records && Alike(w, v, id)
    && (p.Live? ==> p.raw.instanceId == Some(p.id) && FoundAs(w, p.raw, id, name))
    && (W.TairLive(w, id) ==>
          && (p == Visible(id) || p.Live?)
          && (o >= 2 ==> p == Visible(id) && left == o - 2)
          && (o <= 1 ==> left == 0)
          && (o == 1 ==> (p.Live? <==> ListShows(w, id, name)))
          && (o == 0 ==> p.Live?))
    && (Status(w, id).TairReleased? ==> p == InRecycleBin(id) && left == o)
    && (Status(w, id).TairDestroyed? ==>
          && (o == 0 ==> left == 0)
          && if o == 0 && NamedElsewhere(w, id, name) then p.Live? else p == Absent)
  }

  /** What a detail read and then the list find of an instance that is not in the recycle bin. */
  ghost predicate Finds(w: State, v: State, found: Option<Instance>, id: nat, name: string)
    requires id in w.tair.records
  {
    var o, left := w.tair.readOmissions, v.tair.readOmissions;
    && Alike(w, v, id)
    && (found.Some? ==> FoundAs(w, found.value, id, name))
    && (W.TairLive(w, id) ==>
          && (o >= 2 ==> found.None? && left == o - 2) && (o <= 1 ==> left == 0)
          && (o == 1 ==> (found.Some? <==> ListShows(w, id, name)))
          && (o == 0 ==> found.Some?))
    && (Status(w, id).TairDestroyed? ==>
          && (o == 0 ==> left == 0)
          && if o == 0 && NamedElsewhere(w, id, name) then found.Some? else found.None?)
  }

  lemma ObserveSees(w: State, id: nat, name: string)
    requires Issued(w) && id in w.tair.records
    ensures var (v, answer) := Observe(Simulator(), w, id, name);
            answer.Value? && Finds(w, v, answer.value, id, name)
  {
    DetailSees(w, id, name);
    var (w1, byId) := GetById(Simulator(), w, id, name);
    AlikeKeepsNames(w, w1, id, name);
    AlikeKeepsListed(w, w1, id, name);
    if byId == Value(None) {
      ListSees(w1, id, name);
      var (v, listed) := FindByName(Simulator(), w1, name);
      AlikeCompose(w, w1, v, id);
      if listed.value.Some? {
        AlikeKeepsFirst(w, w1, id, listed.value.value.instanceId.value, name);
      }
    }
  }

  /** The overview's word is overruled by a live instance found, and by nothing else. */
  lemma LookFollows(w: State, w1: State, v: State, seen: Presence, found: Option<Instance>, id: nat, name: string)
    requires Issued(w) && id in w.tair.records && !Status(w, id).TairReleased?
    requires Alike(w, w1, id) && w1.tair.readOmissions == w.tair.readOmissions
    requires seen == if Status(w, id).TairDestroyed? then Absent else Visible(id)
    requires Finds(w1, v, found, id, name)
    ensures Sees(w, v, PresenceOf(seen, found), id, name)
  {
    AlikeKeepsNames(w, w1, id, name);
    AlikeKeepsListed(w, w1, id, name);
    AlikeCompose(w, w1, v, id);
    if found.Some? {
      AlikeKeepsFirst(w, w1, id, found.value.instanceId.value, name);
    }
  }

  lemma LookSees(w: State, id: nat, name: string)
    requires Issued(w) && id in w.tair.records
    ensures var (v, answer) := Look(Simulator(), w, id, name);
            answer.Value? && Sees(w, v, answer.value, id, name)
  {
    OverviewSees(w, id, name);
    var (w1, items) := Overview(w, id);
    if !Status(w, id).TairReleased? {
      ObserveSees(w1, id, name);
      var (v, found) := Observe(Simulator(), w1, id, name);
      LookFollows(w, w1, v, PresenceFromOverview(items.value, id, name), found.value, id, name);
    }
  }

  // ---- The whole deletion ----

  ghost predicate Present(w: State, v: State, id: nat) {
    Issued(v) && id in v.tair.records && AlikeBut(w, v, id)
  }

  /** A way of reading that sees what `LookSees` says, whatever it records. */
  ghost predicate Watches(read: Run<State> -> (Run<State>, Answer<Presence>), id: nat, name: string) {
    forall r: Run<State> {:trigger read(r)} | Issued(r.remote) && id in r.remote.tair.records ::
      read(r).1.Value? && Sees(r.remote, read(r).0.remote, read(r).1.value, id, name)
  }

  lemma ReadingWatches(id: nat, name: string)
    ensures Watches(Reading(Simulator(), id, name), id, name)
  {
    forall r: Run<State> | Issued(r.remote) && id in r.remote.tair.records
      ensures var (next, answer) := Reading(Simulator(), id, name)(r);
              answer.Value? && Sees(r.remote, next.remote, answer.value, id, name)
    {
      LookSees(r.remote, id, name);
    }
  }

  /**
   Each observation of a live instance uses up two omitted reads, the detail and the list. With one left
   over for the last observation, the list decides.
   */
  ghost predicate SeenInTime(w: State, id: nat, name: string, attempts: nat) {
    var o := w.tair.readOmissions;
    o + 1 < 2 * attempts || (o + 1 == 2 * attempts && ListShows(w, id, name))
  }

  /** What a deletion that sees the instance in time takes it for. */
  ghost predicate TakenFor(w: State, k: nat, id: nat, name: string) {
    if w.tair.readOmissions % 2 == 1 && ListShows(w, id, name) then FirstNamed(w, k, name) else k == id
  }

  ghost predicate TakenAs(w: State, p: Presence, id: nat, name: string) {
    && p.Live? && p.id in w.tair.records && TakenFor(w, p.id, id, name)
    && p.raw.protected == Protected(w, p.id) && !DeletingOrReleased(p.raw)
  }

  /** Seen live, with no omission left and nothing but read counts changed. */
  ghost predicate SeenWell(w: State, v: State, p: Presence, id: nat, name: string) {
    && TakenAs(w, p, id, name) && Present(w, v, id) && W.TairLive(w, id) && W.TairLive(v, id)
    && v.tair.readOmissions == 0 && Protected(v, id) == Protected(w, id)
  }

  lemma SeenAtOnce(w: State, v: State, p: Presence, id: nat, name: string, attempts: nat)
    requires Sees(w, v, p, id, name) && W.TairLive(w, id) && attempts >= 1 && p != Visible(id)
    ensures SeenInTime(w, id, name, attempts) && SeenWell(w, v, p, id, name)
  {
  }

  lemma SeenLater(w: State, v: State, u: State, q: Presence, p: Presence, id: nat, name: string)
    requires Sees(w, v, q, id, name) && W.TairLive(w, id) && q == Visible(id)
    requires SeenWell(v, u, p, id, name)
    ensures SeenWell(w, u, p, id, name)
  {
    AlikeKeepsListed(w, v, id, name);
    AlikeKeepsFirst(w, v, id, p.id, name);
    AlikeCompose(w, v, u, id);
  }

  /** Not seen yet: the instance lives on, and is seen in time as before exactly with one attempt less. */
  ghost predicate SeenYet(w: State, v: State, id: nat, name: string, attempts: nat) {
    && Present(w, v, id) && W.TairLive(v, id)
    && (attempts == 1 ==> !SeenInTime(w, id, name, 1))
    && (attempts >= 2 ==> SeenInTime(v, id, name, attempts - 1) == SeenInTime(w, id, name, attempts))
  }

  lemma NotSeenYet(w: State, v: State, p: Presence, id: nat, name: string, attempts: nat)
    requires Sees(w, v, p, id, name) && W.TairLive(w, id) && attempts >= 1 && p == Visible(id)
    ensures SeenYet(w, v, id, name, attempts)
  {
    AlikeKeepsListed(w, v, id, name);
  }

  /** A live instance seen in time is seen with no omission left. */
  lemma LiveIsSeen(
    r: Run<State>, read: Run<State> -> (Run<State>, Answer<Presence>), id: nat, name: string, attempts: nat)
    requires Watches(read, id, name)
    requires attempts >= 1 && SeenInTime(r.remote, id, name, attempts) && Issued(r.remote) && W.TairLive(r.remote, id)
    ensures var (next, result) := WaitFor(r, read, Consistent, attempts);
            result.Ok? && SeenWell(r.remote, next.remote, result.value, id, name)
  {
    var pre := (t: Run<State>, n: nat) =>
      Issued(t.remote) && W.TairLive(t.remote, id) && SeenInTime(t.remote, id, name, n);
    var post := (t: Run<State>, u: Run<State>, result: Result<Presence, WaitError>) =>
      result.Ok? && SeenWell(t.remote, u.remote, result.value, id, name);
    forall t, n: nat | n >= 1 && pre(t, n)
      ensures WaitStep(t, read, Consistent, n, pre, post)
    {
      assert Sees(t.remote, read(t).0.remote, read(t).1.value, id, name);
      SeenStep(t.remote, read(t).0.remote, read(t).1.value, id, name, n);
      forall u: Run<State>, result | read(t).1.value.Visible? && post(read(t).0, u, result)
        ensures post(t, u, result)
      {
        SeenLater(t.remote, read(t).0.remote, u.remote, read(t).1.value, result.value, id, name);
      }
    }
    WaitEnds(r, read, Consistent, attempts, pre, post);
  }

  /** One observation of a live instance: it is seen well, or is not seen yet. */
  lemma SeenStep(w: State, v: State, p: Presence, id: nat, name: string, attempts: nat)
    requires Sees(w, v, p, id, name) && W.TairLive(w, id) && attempts >= 1
    ensures p.Visible? <==> p == Visible(id)
    ensures !p.Visible? ==> SeenInTime(w, id, name, attempts) && SeenWell(w, v, p, id, name)
    ensures p.Visible? ==> SeenYet(w, v, id, name, attempts)
  {
    if p.Visible? {
      NotSeenYet(w, v, p, id, name, attempts);
    } else {
      SeenAtOnce(w, v, p, id, name, attempts);
    }
  }

  /** What a wait that misses the instance ends with: it lives on. */
  ghost predicate MissedEnds(w: State, v: State, result: Result<Presence, WaitError>, id: nat) {
    result == Err(TimedOut) && Present(w, v, id) && W.TairLive(v, id)
  }

  lemma MissedLater(
    w: State, v: State, u: State, p: Presence, result: Result<Presence, WaitError>, id: nat, name: string)
    requires Sees(w, v, p, id, name) && MissedEnds(v, u, result, id)
    ensures MissedEnds(w, u, result, id)
  {
    AlikeCompose(w, v, u, id);
  }

  /** One that is not seen in time is missed at every observation. */
  lemma LiveIsMissed(
    r: Run<State>, read: Run<State> -> (Run<State>, Answer<Presence>), id: nat, name: string, attempts: nat)
    requires Watches(read, id, name)
    requires attempts >= 1 && !SeenInTime(r.remote, id, name, attempts)
    requires Issued(r.remote) && W.TairLive(r.remote, id)
    ensures var (next, result) := WaitFor(r, read, Consistent, attempts);
            MissedEnds(r.remote, next.remote, result, id)
  {
    var pre := (t: Run<State>, n: nat) =>
      Issued(t.remote) && W.TairLive(t.remote, id) && !SeenInTime(t.remote, id, name, n);
    var post := (t: Run<State>, u: Run<State>, result: Result<Presence, WaitError>) =>
      MissedEnds(t.remote, u.remote, result, id);
    forall t, n: nat | n >= 1 && pre(t, n)
      ensures WaitStep(t, read, Consistent, n, pre, post)
    {
      assert Sees(t.remote, read(t).0.remote, read(t).1.value, id, name);
      SeenStep(t.remote, read(t).0.remote, read(t).1.value, id, name, n);
      forall u: Run<State>, result | read(t).1.value.Visible? && post(read(t).0, u, result)
        ensures post(t, u, result)
      {
        MissedLater(t.remote, read(t).0.remote, u.remote, read(t).1.value, result, id, name);
      }
    }
    WaitEnds(r, read, Consistent, attempts, pre, post);
  }

  /** A destroyed instance stays so under an observation, which sees its listed namesake or nothing. */
  lemma GoneStep(w: State, v: State, p: Presence, id: nat, name: string)
    requires Sees(w, v, p, id, name) && Status(w, id).TairDestroyed?
    ensures Present(w, v, id) && Status(v, id).TairDestroyed? && Protected(v, id) == Protected(w, id)
    ensures w.tair.readOmissions == 0 ==> v.tair.readOmissions == 0
    ensures NamedElsewhere(v, id, name) == NamedElsewhere(w, id, name)
    ensures p == Absent <==> !(w.tair.readOmissions == 0 && NamedElsewhere(w, id, name))
  {
    AlikeKeepsNames(w, v, id, name);
  }

  /** Destroyed before and after, with nothing else changed but read counts. */
  ghost predicate StaysGone(w: State, v: State, id: nat) {
    && Present(w, v, id) && id in w.tair.records && Status(w, id).TairDestroyed? && Status(v, id).TairDestroyed?
    && Protected(v, id) == Protected(w, id)
    && (w.tair.readOmissions == 0 ==> v.tair.readOmissions == 0)
  }

  /** What the wait for absence ends with. */
  ghost predicate AbsenceEnds(w: State, v: State, result: Result<Presence, WaitError>, id: nat, name: string) {
    && StaysGone(w, v, id)
    && result == if w.tair.readOmissions == 0 && NamedElsewhere(w, id, name) then Err(TimedOut) else Ok(Absent)
  }

  lemma GoneLater(w: State, v: State, u: State, p: Presence, result: Result<Presence, WaitError>, id: nat, name: string)
    requires Sees(w, v, p, id, name) && Status(w, id).TairDestroyed? && p != Absent
    requires AbsenceEnds(v, u, result, id, name)
    ensures AbsenceEnds(w, u, result, id, name)
  {
    GoneStep(w, v, p, id, name);
    AlikeCompose(w, v, u, id);
  }

  /** Once destroyed, absence is confirmed unless another listed instance bears the name. */
  lemma AbsenceIsSeen(
    r: Run<State>, read: Run<State> -> (Run<State>, Answer<Presence>), id: nat, name: string, attempts: nat)
    requires Watches(read, id, name)
    requires attempts >= 1 && Issued(r.remote) && id in r.remote.tair.records && Status(r.remote, id).TairDestroyed?
    ensures var (last, result) := WaitFor(r, read, IsAbsent, attempts);
            AbsenceEnds(r.remote, last.remote, result, id, name)
  {
    var pre := (t: Run<State>, n: nat) =>
      Issued(t.remote) && id in t.remote.tair.records && Status(t.remote, id).TairDestroyed?;
    var post := (t: Run<State>, u: Run<State>, result: Result<Presence, WaitError>) =>
      AbsenceEnds(t.remote, u.remote, result, id, name);
    forall t, n: nat | n >= 1 && pre(t, n)
      ensures WaitStep(t, read, IsAbsent, n, pre, post)
    {
      var p := read(t).1.value;
      assert Sees(t.remote, read(t).0.remote, p, id, name);
      GoneStep(t.remote, read(t).0.remote, p, id, name);
      forall u: Run<State>, result | p != Absent && post(read(t).0, u, result)
        ensures post(t, u, result)
      {
        GoneLater(t.remote, read(t).0.remote, u.remote, p, result, id, name);
      }
    }
    WaitEnds(r, read, IsAbsent, attempts, pre, post);
  }

  /** An instance in the recycle bin is seen there at the first observation. */
  lemma ReleaseIsSeen(
    r: Run<State>, read: Run<State> -> (Run<State>, Answer<Presence>), ready: Presence -> bool, id: nat, name: string,
    attempts: nat)
    requires Watches(read, id, name) && ready(InRecycleBin(id))
    requires attempts >= 1 && Issued(r.remote) && id in r.remote.tair.records && Status(r.remote, id).TairReleased?
    ensures var (next, result) := WaitFor(r, read, ready, attempts);
            && result == Ok(InRecycleBin(id)) && Present(r.remote, next.remote, id)
            && Status(next.remote, id).TairReleased? && Protected(next.remote, id) == Protected(r.remote, id)
            && next.remote.tair.readOmissions == r.remote.tair.readOmissions
  {
    assert Sees(r.remote, read(r).0.remote, read(r).1.value, id, name);
  }

  /** The confirmation after a destruction. */
  lemma ConfirmEnds(r: Run<State>, id: nat, name: string, attempts: nat)
    requires attempts >= 1 && Issued(r.remote) && id in r.remote.tair.records && Status(r.remote, id).TairDestroyed?
    ensures var (last, outcome) := Confirm(Simulator(), r, id, name, attempts);
            && StaysGone(r.remote, last.remote, id)
            && outcome == if r.remote.tair.readOmissions == 0 && NamedElsewhere(r.remote, id, name)
                          then Err(WaitTimeout) else Ok(())
  {
    ReadingWatches(id, name);
    AbsenceIsSeen(r, Reading(Simulator(), id, name), id, name, attempts);
  }

  /** From the recycle bin: destroyed for good, whatever the reads then say. */
  lemma FinishDestroys(r: Run<State>, id: nat, name: string, attempts: nat)
    requires attempts >= 1 && Issued(r.remote) && id in r.remote.tair.records && Status(r.remote, id).TairReleased?
    ensures var (last, outcome) := Finish(Simulator(), r, InRecycleBin(id), id, name, attempts);
            && Present(r.remote, last.remote, id) && Status(last.remote, id).TairDestroyed?
            && Protected(last.remote, id) == Protected(r.remote, id)
            && (r.remote.tair.readOmissions == 0 ==> last.remote.tair.readOmissions == 0)
            && outcome == if r.remote.tair.readOmissions == 0 && NamedElsewhere(r.remote, id, name)
                          then Err(WaitTimeout) else Ok(())
  {
    var destroyed := W.DestroyTair(r.remote, id).0;
    var sent := Run(destroyed, r.trace + [SentDestroy(id)]);
    AlikeKeepsNames(r.remote, destroyed, id, name);
    ConfirmEnds(sent, id, name, attempts);
    var (last, outcome) := Confirm(Simulator(), sent, id, name, attempts);
    assert Finish(Simulator(), r, InRecycleBin(id), id, name, attempts) == (last, outcome);
    AlikeCompose(r.remote, destroyed, last.remote, id);
  }

  /** The simulator accepts the request, so the instance is looked at again next. */
  lemma SwitchedOff(r: Run<State>, p: Presence, id: nat, name: string, attempts: nat)
    requires attempts >= 1 && p.Live? && !IsDeleting(p.raw) && p.raw.protected && id in r.remote.tair.records
    ensures var sent := Run(Disable(r.remote, id).0, DisableTrace(Simulator(), r, id, name));
            Unprotect(Simulator(), r, p, id, name, attempts) == ObserveForDelete(Simulator(), sent, id, name, attempts)
  {
    assert Disable(r.remote, id).1 == Value(());
  }

  lemma UnprotectKeepsLive(r: Run<State>, p: Presence, id: nat, name: string, attempts: nat)
    requires attempts >= 1 && p.Live? && !DeletingOrReleased(p.raw)
    requires Issued(r.remote) && W.TairLive(r.remote, id) && r.remote.tair.readOmissions == 0
    ensures var (next, result) := Unprotect(Simulator(), r, p, id, name, attempts);
            && result.Ok? && result.value.Live? && !DeletingOrReleased(result.value.raw)
            && Present(r.remote, next.remote, id) && W.TairLive(next.remote, id) && next.remote.tair.readOmissions == 0
            && (Protected(next.remote, id) <==> Protected(r.remote, id) && !p.raw.protected)
  {
    if p.raw.protected {
      var disabled := Disable(r.remote, id).0;
      var sent := Run(disabled, DisableTrace(Simulator(), r, id, name));
      SwitchedOff(r, p, id, name, attempts);
      ReadingWatches(id, name);
      LiveIsSeen(sent, Reading(Simulator(), id, name), id, name, attempts);
      AlikeCompose(r.remote, disabled, ObserveForDelete(Simulator(), sent, id, name, attempts).0.remote, id);
    }
  }

  lemma ReleaseReleases(r: Run<State>, p: Presence, id: nat, name: string, attempts: nat)
    requires attempts >= 1 && p.Live? && !DeletingOrReleased(p.raw)
    requires Issued(r.remote) && W.TairLive(r.remote, id) && r.remote.tair.readOmissions == 0
    ensures var (next, result) := Release(Simulator(), r, p, id, name, attempts);
            && result == Ok(InRecycleBin(id))
            && Present(r.remote, next.remote, id) && Status(next.remote, id).TairReleased?
            && next.remote.tair.readOmissions == 0
            && (Protected(next.remote, id) <==> Protected(r.remote, id) && !p.raw.protected)
  {
    UnprotectKeepsLive(r, p, id, name, attempts);
    var (r1, live) := Unprotect(Simulator(), r, p, id, name, attempts);
    var released := W.DeleteTair(r1.remote, id).0;
    var (r2, asked) := AskDelete(Simulator(), r1, live.value, id, name);
    assert r2.remote == released && asked == Value(());
    AlikeCompose(r.remote, r1.remote, released, id);
    ReadingWatches(id, name);
    ReleaseIsSeen(r2, Reading(Simulator(), id, name), IsReleased, id, name, attempts);
    var (r3, _) := Await(Simulator(), r2, id, name, IsReleased, attempts);
    AlikeCompose(r.remote, released, r3.remote, id);
  }

  /**
   A live instance seen in time always ends destroyed with every other record kept; the run reports success
   exactly when no other listed instance bears its name. Its protection is switched off if the instance it was
   taken for had it on.
   */
  lemma LiveIsDestroyed(w: State, id: nat, name: string, attempts: nat)
    requires Issued(w) && W.TairLive(w, id) && attempts >= 1 && SeenInTime(w, id, name, attempts)
    ensures var (r, outcome) := DeleteRun(Simulator(), w, id, name, attempts);
            && Present(w, r.remote, id) && Status(r.remote, id).TairDestroyed? && r.remote.tair.readOmissions == 0
            && outcome == (if NamedElsewhere(w, id, name) then Err(WaitTimeout) else Ok(()))
            && exists k :: k in w.tair.records && TakenFor(w, k, id, name)
                           && (Protected(r.remote, id) <==> Protected(w, id) && !Protected(w, k))
  {
    var start := Run(w, []);
    ReadingWatches(id, name);
    LiveIsSeen(start, Reading(Simulator(), id, name), id, name, attempts);
    var (r, first) := ObserveForDelete(Simulator(), start, id, name, attempts);
    ReleaseReleases(r, first.value, id, name, attempts);
    var (r1, released) := Release(Simulator(), r, first.value, id, name, attempts);
    FinishDestroys(r1, id, name, attempts);
    AlikeCompose(w, r.remote, r1.remote, id);
    AlikeKeepsNames(w, r1.remote, id, name);
    AlikeCompose(w, r1.remote, Finish(Simulator(), r1, InRecycleBin(id), id, name, attempts).0.remote, id);
    assert TakenFor(w, first.value.id, id, name);
  }

  /** The instance it is taken for is unique, so its protection decides. */
  lemma TakenForOne(w: State, k: nat, j: nat, id: nat, name: string)
    requires TakenFor(w, k, id, name) && TakenFor(w, j, id, name)
    ensures k == j
  {
  }

  /**
   With an even number of omitted reads, or no listed namesake before it, a deletion that sees the instance in
   time never leaves its protection on.
   */
  lemma ProtectionEndsOff(w: State, id: nat, name: string, attempts: nat)
    requires Issued(w) && W.TairLive(w, id) && attempts >= 1 && SeenInTime(w, id, name, attempts)
    requires w.tair.readOmissions % 2 == 0 || !ListShows(w, id, name) || FirstNamed(w, id, name)
    ensures var gone := DeleteRun(Simulator(), w, id, name, attempts).0.remote;
            id in gone.tair.records && !Protected(gone, id)
  {
    LiveIsDestroyed(w, id, name, attempts);
  }

  /** Otherwise it is left on exactly when it was on and the first listed namesake's is off. */
  lemma ProtectionOfTheNamesake(w: State, id: nat, k: nat, name: string, attempts: nat)
    requires Issued(w) && W.TairLive(w, id) && attempts >= 1 && SeenInTime(w, id, name, attempts)
    requires w.tair.readOmissions % 2 == 1 && FirstNamed(w, k, name)
    ensures var gone := DeleteRun(Simulator(), w, id, name, attempts).0.remote;
            id in gone.tair.records && (Protected(gone, id) <==> Protected(w, id) && !Protected(w, k))
  {
    LiveIsDestroyed(w, id, name, attempts);
    assert k == id || NamedElsewhere(w, id, name);
    var gone := DeleteRun(Simulator(), w, id, name, attempts).0.remote;
    var j :| j in w.tair.records && TakenFor(w, j, id, name)
             && (Protected(gone, id) <==> Protected(w, id) && !Protected(w, j));
    TakenForOne(w, k, j, id, name);
  }

  /** An instance already in the recycle bin is destroyed at once, however few the attempts. */
  lemma ReleasedIsDestroyed(w: State, id: nat, name: string, attempts: nat)
    requires Issued(w) && id in w.tair.records && Status(w, id).TairReleased? && attempts >= 1
    ensures var (r, outcome) := DeleteRun(Simulator(), w, id, name, attempts);
            && Present(w, r.remote, id) && Status(r.remote, id).TairDestroyed?
            && outcome == if w.tair.readOmissions == 0 && NamedElsewhere(w, id, name) then Err(WaitTimeout) else Ok(())
  {
    var start := Run(w, []);
    ReadingWatches(id, name);
    ReleaseIsSeen(start, Reading(Simulator(), id, name), Consistent, id, name, attempts);
    var (r, _) := ObserveForDelete(Simulator(), start, id, name, attempts);
    AlikeKeepsNames(w, r.remote, id, name);
    FinishDestroys(r, id, name, attempts);
    AlikeCompose(w, r.remote, Finish(Simulator(), r, InRecycleBin(id), id, name, attempts).0.remote, id);
  }

  /** One that is not seen in time is left alone: the deletion stops at the contradiction, and the instance lives. */
  lemma ContradictionStopsDeletion(w: State, id: nat, name: string, attempts: nat)
    requires Issued(w) && W.TairLive(w, id) && attempts >= 1 && !SeenInTime(w, id, name, attempts)
    ensures var (r, outcome) := DeleteRun(Simulator(), w, id, name, attempts);
            outcome == Err(ObservationConflict) && Present(w, r.remote, id) && W.TairLive(r.remote, id)
  {
    ReadingWatches(id, name);
    LiveIsMissed(Run(w, []), Reading(Simulator(), id, name), id, name, attempts);
  }

  // ---- From a destroyed record ----

  /** A destroyed instance is seen absent, or as its listed namesake, at the first observation. */
  lemma GoneIsSeen(
    r: Run<State>, read: Run<State> -> (Run<State>, Answer<Presence>), id: nat, name: string, attempts: nat)
    requires Watches(read, id, name)
    requires attempts >= 1 && Issued(r.remote) && id in r.remote.tair.records && Status(r.remote, id).TairDestroyed?
    ensures var (next, result) := WaitFor(r, read, Consistent, attempts);
            && result.Ok? && Sees(r.remote, next.remote, result.value, id, name)
            && Present(r.remote, next.remote, id) && Status(next.remote, id).TairDestroyed?
  {
    assert Sees(r.remote, read(r).0.remote, read(r).1.value, id, name);
  }

  ghost predicate Shadowed(w: State, id: nat, name: string) {
    && Issued(w) && id in w.tair.records && Status(w, id).TairDestroyed?
    && w.tair.readOmissions == 0 && NamedElsewhere(w, id, name)
  }

  lemma ShadowedObserve(r: Run<State>, id: nat, name: string, attempts: nat)
    requires attempts >= 1 && Shadowed(r.remote, id, name)
    ensures var (next, result) := ObserveForDelete(Simulator(), r, id, name, attempts);
            && result.Ok? && result.value.Live? && !DeletingOrReleased(result.value.raw)
            && Present(r.remote, next.remote, id) && Shadowed(next.remote, id, name)
  {
    ReadingWatches(id, name);
    GoneIsSeen(r, Reading(Simulator(), id, name), id, name, attempts);
    AlikeKeepsNames(r.remote, ObserveForDelete(Simulator(), r, id, name, attempts).0.remote, id, name);
  }

  lemma ShadowedUnprotect(r: Run<State>, p: Presence, id: nat, name: string, attempts: nat)
    requires attempts >= 1 && Shadowed(r.remote, id, name) && p.Live? && !DeletingOrReleased(p.raw)
    ensures var (next, result) := Unprotect(Simulator(), r, p, id, name, attempts);
            && result.Ok? && result.value.Live? && !DeletingOrReleased(result.value.raw)
            && Present(r.remote, next.remote, id) && Shadowed(next.remote, id, name)
  {
    if p.raw.protected {
      var disabled := Disable(r.remote, id).0;
      var sent := Run(disabled, DisableTrace(Simulator(), r, id, name));
      SwitchedOff(r, p, id, name, attempts);
      AlikeKeepsNames(r.remote, disabled, id, name);
      ShadowedObserve(sent, id, name, attempts);
      AlikeCompose(r.remote, disabled, ObserveForDelete(Simulator(), sent, id, name, attempts).0.remote, id);
    }
  }

  /** The delete request finds nothing, and the namesake seen afterwards is not being deleted. */
  lemma ShadowedAsk(r: Run<State>, p: Presence, id: nat, name: string)
    requires Shadowed(r.remote, id, name) && p.Live? && !DeletingOrReleased(p.raw)
    ensures var (next, asked) := AskDelete(Simulator(), r, p, id, name);
            && asked == Fault(W.Rejection(NotFound))
            && Present(r.remote, next.remote, id) && Shadowed(next.remote, id, name)
  {
    var sent := Run(r.remote, Sent(r.trace, SentDelete(id), Fault(W.Rejection(NotFound))));
    assert SendDelete(Simulator(), id)(r) == (sent, Fault(W.Rejection(NotFound)));
    LookSees(r.remote, id, name);
    AlikeKeepsNames(r.remote, Look(Simulator(), r.remote, id, name).0, id, name);
  }

  /**
   A record that is already destroyed stays so. The deletion reports success, or, while another listed
   instance bears the name and no read is omitted, fails because the instance is not found.
   */
  lemma DestroyedStaysDestroyed(w: State, id: nat, name: string, attempts: nat)
    requires Issued(w) && id in w.tair.records && Status(w, id).TairDestroyed? && attempts >= 1
    ensures var (r, outcome) := DeleteRun(Simulator(), w, id, name, attempts);
            && Present(w, r.remote, id) && Status(r.remote, id).TairDestroyed?
            && (w.tair.readOmissions == 0 ==> r.remote.tair.readOmissions == 0)
            && outcome == if w.tair.readOmissions == 0 && NamedElsewhere(w, id, name)
                          then Err(ProviderError(W.Rejection(NotFound))) else Ok(())
  {
    var start := Run(w, []);
    if Shadowed(w, id, name) {
      ShadowedObserve(start, id, name, attempts);
      var (r, first) := ObserveForDelete(Simulator(), start, id, name, attempts);
      ShadowedUnprotect(r, first.value, id, name, attempts);
      var (r1, live) := Unprotect(Simulator(), r, first.value, id, name, attempts);
      ShadowedAsk(r1, live.value, id, name);
      AlikeCompose(w, r.remote, r1.remote, id);
      AlikeCompose(w, r1.remote, AskDelete(Simulator(), r1, live.value, id, name).0.remote, id);
    } else {
      ReadingWatches(id, name);
      GoneIsSeen(start, Reading(Simulator(), id, name), id, name, attempts);
      assert ObserveForDelete(Simulator(), start, id, name, attempts).1 == Ok(Absent);
    }
  }

  /** One deletion as a step of the world. */
  function Deletion(id: nat, name: string, attempts: nat): State -> (State, Result<(), Failure>)
    requires attempts >= 1
  {
    (w: State) =>
      var (r, outcome) := DeleteRun(Simulator(), w, id, name, attempts);
      (r.remote, outcome)
  }

  /** The last of `n + 1` deletions in a row. */
  function Reruns(w: State, delete: State -> (State, Result<(), Failure>), n: nat): (State, Result<(), Failure>)
    decreases n
  {
    if n == 0 then delete(w) else Reruns(delete(w).0, delete, n - 1)
  }

  lemma ShadowedDeletion(w: State, id: nat, name: string, attempts: nat)
    requires attempts >= 1 && Shadowed(w, id, name)
    ensures var (next, outcome) := Deletion(id, name, attempts)(w);
            Shadowed(next, id, name) && outcome == Err(ProviderError(W.Rejection(NotFound)))
  {
    DestroyedStaysDestroyed(w, id, name, attempts);
    AlikeKeepsNames(w, DeleteRun(Simulator(), w, id, name, attempts).0.remote, id, name);
  }

  lemma {:induction false} EveryRerunFails(
    w: State, delete: State -> (State, Result<(), Failure>), id: nat, name: string, n: nat)
    requires Shadowed(w, id, name)
    requires forall v: State {:trigger delete(v)} | Shadowed(v, id, name) ::
               Shadowed(delete(v).0, id, name) && delete(v).1 == Err(ProviderError(W.Rejection(NotFound)))
    ensures Reruns(w, delete, n).1 == Err(ProviderError(W.Rejection(NotFound)))
    decreases n
  {
    if n > 0 {
      EveryRerunFails(delete(w).0, delete, id, name, n - 1);
    }
  }

  /**
   Of two live instances of one name, deleting one that is seen in time destroys it and times out, and every
   rerun fails.
   */
  lemma NamesakeDefeatsDeletion(w: State, id: nat, name: string, attempts: nat, n: nat)
    requires Issued(w) && W.TairLive(w, id) && NamedElsewhere(w, id, name)
    requires attempts >= 1 && SeenInTime(w, id, name, attempts)
    ensures var (gone, outcome) := Deletion(id, name, attempts)(w);
            && outcome == Err(WaitTimeout) && id in gone.tair.records && Status(gone, id).TairDestroyed?
            && Reruns(gone, Deletion(id, name, attempts), n).1 == Err(ProviderError(W.Rejection(NotFound)))
  {
    LiveIsDestroyed(w, id, name, attempts);
    var gone := DeleteRun(Simulator(), w, id, name, attempts).0.remote;
    AlikeKeepsNames(w, gone, id, name);
    forall v: State | Shadowed(v, id, name)
      ensures Shadowed(Deletion(id, name, attempts)(v).0, id, name)
      ensures Deletion(id, name, attempts)(v).1 == Err(ProviderError(W.Rejection(NotFound)))
    {
      ShadowedDeletion(v, id, name, attempts);
    }
    EveryRerunFails(gone, Deletion(id, name, attempts), id, name, n);
  }

  /** Such a pair: what a destroyed token leaves when it is used twice more. */
  lemma TwoNamesakes(settings: W.Settings, token: string)
    ensures var made := W.CreateTair(W.Initial(settings, 0), "cache", Some(token), None).0;
            var gone := W.DestroyTair(W.DeleteTair(made, 1).0, 1).0;
            var w := W.CreateTair(W.CreateTair(gone, "cache", Some(token), None).0, "cache", Some(token), None).0;
            && Issued(w) && W.TairLive(w, 2) && NamedElsewhere(w, 2, "cache")
            && forall attempts: nat | attempts >= 1 :: SeenInTime(w, 2, "cache", attempts)
  {
    W.DestroyedTokenMakesTwo(settings, token);
    var made := W.CreateTair(W.Initial(settings, 0), "cache", Some(token), None).0;
    var gone := W.DestroyTair(W.DeleteTair(made, 1).0, 1).0;
    var w := W.CreateTair(W.CreateTair(gone, "cache", Some(token), None).0, "cache", Some(token), None).0;
    assert W.TairLive(w, 3) && w.tair.records[3].name == "cache";
  }
}
