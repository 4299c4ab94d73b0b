/** The last output of every session of a batch, as the group-relative advantage and the validation
    metrics select it from the row keys. */
module SessionSelection {
  import opened Outcomes
  import opened SessionKeys

  /** The dictionary entry a row belongs to: its session, or the whole key when it has too few fields. */
  function Session(key: string): string {
    match ParseKey(key)
    case Fields(session, _) => session
    case _ => key
  }

  function Rank(key: string): nat {
    match ParseKey(key)
    case Fields(_, index) => index
    case _ => 0
  }

  predicate Resets(key: string) {
    ParseKey(key).Malformed?
  }

  /** Row p stands for session s among the first n rows. A key with too few fields takes over its entry
      from all earlier rows; otherwise a higher index does, and the first of equal indices stays. */
  ghost predicate Final(keys: seq<string>, n: nat, s: string, p: nat)
    requires n <= |keys|
  {
    && p < n && Session(keys[p]) == s
    && (forall j :: p < j < n && Session(keys[j]) == s ==> !Resets(keys[j]) && Rank(keys[j]) <= Rank(keys[p]))
    && (forall j :: 0 <= j < p && Session(keys[j]) == s ==> Rank(keys[j]) < Rank(keys[p]) || Retaken(keys, s, j, p))
  }

  /** Some row after j, up to p, took the entry over regardless of index. */
  ghost predicate Retaken(keys: seq<string>, s: string, j: nat, p: nat)
    requires p < |keys|
  {
    exists m :: j < m <= p && Session(keys[m]) == s && Resets(keys[m])
  }

  lemma FinalIsUnique(keys: seq<string>, n: nat, s: string, p: nat, q: nat)
    requires n <= |keys| && Final(keys, n, s, p) && Final(keys, n, s, q)
    ensures p == q
  {
    hide Session, Rank, Resets;
  }

  /** One more row: who stands for its session, and that nothing changes for the others. */
  lemma FinalNext(keys: seq<string>, n: nat, s: string, p: nat)
    requires n < |keys| && Final(keys, n, s, p)
    ensures var takes := Session(keys[n]) == s && (Resets(keys[n]) || Rank(keys[p]) < Rank(keys[n]));
            Final(keys, n + 1, s, if takes then n else p)
  {
    hide Session, Rank, Resets;
    if Session(keys[n]) == s && (Resets(keys[n]) || Rank(keys[p]) < Rank(keys[n])) {
      forall j | 0 <= j < n && Session(keys[j]) == s
        ensures Rank(keys[j]) < Rank(keys[n]) || Retaken(keys, s, j, n)
      {
        if j < p && Retaken(keys, s, j, p) {
          assert Retaken(keys, s, j, n);
        }
      }
    }
  }

  // ---------------------------------------------------------------- the dictionary of sessions

  /** An insertion-ordered dictionary from sessions to (index, row). */
  datatype Table = Table(order: seq<string>, entry: map<string, (nat, nat)>) {
    function Put(s: string, v: (nat, nat)): Table {
      Table(if s in entry then order else order + [s], entry[s := v])
    }
  }

  ghost predicate WellFormed(t: Table) {
    && (forall s :: s in t.entry <==> s in t.order)
    && Distinct(t.order)
  }

  ghost predicate Distinct<T>(s: seq<T>) {
    forall i, j :: 0 <= i < j < |s| ==> s[i] != s[j]
  }

  lemma PutWellFormed(t: Table, s: string, v: (nat, nat))
    requires WellFormed(t)
    ensures WellFormed(t.Put(s, v))
  {
  }

  /** The table after n rows: exactly the sessions seen, each with the row that stands for it. */
  ghost predicate Tracks(keys: seq<string>, n: nat, t: Table)
    requires n <= |keys|
  {
    && WellFormed(t)
    && (forall j :: 0 <= j < n ==> Session(keys[j]) in t.entry)
    && forall s :: s in t.entry ==> Stands(keys, n, s, t.entry[s])
  }

  ghost predicate Stands(keys: seq<string>, n: nat, s: string, v: (nat, nat))
    requires n <= |keys|
  {
    v.1 < n && Final(keys, n, s, v.1) && v.0 == Rank(keys[v.1])
  }

  /** The rule of both loops. */
  function Update(t: Table, key: string, pos: nat): Table {
    var s := Session(key);
    if Resets(key) || s !in t.entry || t.entry[s].0 < Rank(key) then t.Put(s, (Rank(key), pos)) else t
  }

  lemma FirstOfSession(keys: seq<string>, n: nat, t: Table)
    requires n < |keys| && Tracks(keys, n, t) && Session(keys[n]) !in t.entry
    ensures Final(keys, n + 1, Session(keys[n]), n)
  {
    hide Session, Rank, Resets;
  }

  lemma NoRows(keys: seq<string>)
    ensures Tracks(keys, 0, Table([], map[])) && InOrder(keys, 0, [])
  {
  }

  lemma StandsNext(keys: seq<string>, n: nat, t: Table, s: string)
    requires n < |keys| && Tracks(keys, n, t) && s in Update(t, keys[n], n).entry
    ensures Stands(keys, n + 1, s, Update(t, keys[n], n).entry[s])
  {
    hide Session, Rank, Resets, Final, WellFormed;
    if s in t.entry {
      assert Stands(keys, n, s, t.entry[s]);
      FinalNext(keys, n, s, t.entry[s].1);
    } else {
      FirstOfSession(keys, n, t);
    }
  }

  lemma TrackNext(keys: seq<string>, n: nat, t: Table)
    requires n < |keys| && Tracks(keys, n, t)
    ensures Tracks(keys, n + 1, Update(t, keys[n], n))
  {
    hide Session, Rank, Resets, Stands, WellFormed;
    var u := Update(t, keys[n], n);
    PutWellFormed(t, Session(keys[n]), (Rank(keys[n]), n));
    forall s | s in u.entry ensures Stands(keys, n + 1, s, u.entry[s]) {
      StandsNext(keys, n, t, s);
    }
  }

  // ---------------------------------------------------------------- the order of sessions

  /** The first of n rows that belongs to session s, or n if there is none. */
  function FirstAt(keys: seq<string>, n: nat, s: string): (f: nat)
    requires n <= |keys|
    ensures f <= n && (f < n ==> Session(keys[f]) == s)
    ensures forall j :: 0 <= j < f ==> Session(keys[j]) != s
  {
    if n == 0 then 0 else
    var f := FirstAt(keys, n - 1, s);
    if f < n - 1 then f else if Session(keys[n - 1]) == s then n - 1 else n
  }

  /** Sessions are listed as they first appear. */
  ghost predicate InOrder(keys: seq<string>, n: nat, order: seq<string>)
    requires n <= |keys|
  {
    && (forall a :: 0 <= a < |order| ==> FirstAt(keys, n, order[a]) < n)
    && forall a, b :: 0 <= a < b < |order| ==> FirstAt(keys, n, order[a]) < FirstAt(keys, n, order[b])
  }

  lemma FirstStays(keys: seq<string>, n: nat, s: string)
    requires n < |keys|
    ensures FirstAt(keys, n, s) < n ==> FirstAt(keys, n + 1, s) == FirstAt(keys, n, s)
    ensures FirstAt(keys, n, s) == n && Session(keys[n]) == s ==> FirstAt(keys, n + 1, s) == n
  {
    hide Session;
  }

  lemma OrderNext(keys: seq<string>, n: nat, t: Table)
    requires n < |keys| && Tracks(keys, n, t) && InOrder(keys, n, t.order)
    ensures InOrder(keys, n + 1, Update(t, keys[n], n).order)
  {
    hide Session, Rank, Resets, Stands, Distinct, FirstAt;
    var s := Session(keys[n]);
    var u := Update(t, keys[n], n);
    forall a | 0 <= a < |t.order|
      ensures FirstAt(keys, n + 1, t.order[a]) == FirstAt(keys, n, t.order[a])
    {
      FirstStays(keys, n, t.order[a]);
    }
    FirstStays(keys, n, s);
    if s !in t.entry {
      NotSeen(keys, n, t, s);
    }
  }

  lemma NotSeen(keys: seq<string>, n: nat, t: Table, s: string)
    requires n <= |keys| && Tracks(keys, n, t) && s !in t.entry
    ensures FirstAt(keys, n, s) == n
  {
    hide Session, Stands, WellFormed;
    var f := FirstAt(keys, n, s);
  }

  /** The final rows, by the first appearance of their sessions. */
  ghost predicate ByFirstAppearance(keys: seq<string>, rows: seq<nat>) {
    && (forall a :: 0 <= a < |rows| ==> rows[a] < |keys|)
    && forall a, b :: 0 <= a < b < |rows| ==>
         FirstAt(keys, |keys|, Session(keys[rows[a]])) < FirstAt(keys, |keys|, Session(keys[rows[b]]))
  }

  lemma RowsInOrder(keys: seq<string>, t: Table)
    requires Tracks(keys, |keys|, t) && InOrder(keys, |keys|, t.order)
    ensures (forall s :: s in t.order ==> s in t.entry) && ByFirstAppearance(keys, Rows(t))
  {
    hide FirstAt, Rank, Session;
    RowsLength(keys, t);
    forall a | 0 <= a < |t.order| ensures Rows(t)[a] < |keys| && Session(keys[Rows(t)[a]]) == t.order[a] {
      assert t.order[a] in t.entry;
      assert Stands(keys, |keys|, t.order[a], t.entry[t.order[a]]);
    }
  }

  /** What an entry of the dictionary is for a key with too few fields: the key itself, at index 0, taking over. */
  lemma MalformedEntry(key: string)
    ensures Underscores(key) < 2 <==> Resets(key)
    ensures Underscores(key) < 2 ==> Session(key) == key && Rank(key) == 0
  {
    ParsesExactly(key);
  }

  // ---------------------------------------------------------------- the two selections

  /** The rows that stand for their sessions in the whole batch. */
  ghost predicate Chosen(keys: seq<string>, p: nat) {
    p < |keys| && Final(keys, |keys|, Session(keys[p]), p)
  }

  /** Exactly the chosen rows, each once. */
  ghost predicate Selects(keys: seq<string>, rows: seq<nat>) {
    && (forall p :: p in rows <==> Chosen(keys, p))
    && Distinct(rows)
  }

  /** Row i is mapped to the place, among the selected rows, of the row that stands for its session. */
  ghost predicate Places(keys: seq<string>, rows: seq<nat>, local: seq<nat>) {
    && |local| == |keys|
    && forall i :: 0 <= i < |keys| ==> local[i] < |rows| && Final(keys, |keys|, Session(keys[i]), rows[local[i]])
  }

  function Rows(t: Table): seq<nat>
    requires forall s :: s in t.order ==> s in t.entry
  {
    seq(|t.order|, i requires 0 <= i < |t.order| => t.entry[t.order[i]].1)
  }

  /** The rows listed in the table are the chosen ones. */
  lemma RowsSelect(keys: seq<string>, t: Table)
    requires Tracks(keys, |keys|, t)
    ensures Selects(keys, Rows(t))
  {
    hide Session, Rank, Resets;
    var rows := Rows(t);
    forall p | p in rows ensures Chosen(keys, p) {
      var i :| 0 <= i < |rows| && rows[i] == p;
      assert t.order[i] in t.order;
    }
    forall p: nat | Chosen(keys, p) ensures p in rows {
      var s := Session(keys[p]);
      FinalIsUnique(keys, |keys|, s, p, t.entry[s].1);
      var i :| 0 <= i < |t.order| && t.order[i] == s;
      assert rows[i] == p;
    }
    forall i, j | 0 <= i < j < |rows| ensures rows[i] != rows[j] {
      assert t.order[i] in t.order && t.order[j] in t.order;
    }
  }

  /** The first loop: the table of sessions and each row's session; fails on the first key that does not
      have three fields ending in a number. */
  method TrackSessions(keys: seq<string>) returns (r: Outcome<(Table, seq<string>)>)
    ensures r.Ok? <==> forall i :: 0 <= i < |keys| ==> ParseKey(keys[i]).Fields?
    ensures r.Ok? ==> Tracks(keys, |keys|, r.value.0) && InOrder(keys, |keys|, r.value.0.order) && |r.value.1| == |keys|
    ensures r.Ok? ==> forall i :: 0 <= i < |keys| ==> r.value.1[i] == Session(keys[i])
  {
    hide ParseKey, Tracks, InOrder;
    var t := Table([], map[]);
    var sessions: seq<string> := [];
    NoRows(keys);
    for n := 0 to |keys|
      invariant Tracks(keys, n, t) && InOrder(keys, n, t.order)
      invariant |sessions| == n && forall j :: 0 <= j < n ==> ParseKey(keys[j]).Fields? && sessions[j] == Session(keys[j])
    {
      var parsed := ParseKey(keys[n]);
      if !parsed.Fields? {
        return Crash;
      }
      sessions := sessions + [parsed.session];
      TrackNext(keys, n, t);
      OrderNext(keys, n, t);
      if parsed.session !in t.entry || t.entry[parsed.session].0 < parsed.index {
        t := t.Put(parsed.session, (parsed.index, n));
      }
    }
    r := Ok((t, sessions));
  }

  /** The second loop: the final rows in the table's order, and the place of each session among them. */
  method ListFinals(t: Table) returns (rows: seq<nat>, place: map<string, nat>)
    requires WellFormed(t)
    ensures rows == Rows(t) && place.Keys == t.entry.Keys
    ensures forall s :: s in place ==> place[s] < |rows| && t.order[place[s]] == s
  {
    rows, place := [], map[];
    for i := 0 to |t.order|
      invariant rows == Rows(t)[..i]
      invariant forall j :: 0 <= j < i ==> t.order[j] in place
      invariant forall s :: s in place ==> place[s] < i && t.order[place[s]] == s
    {
      rows := rows + [t.entry[t.order[i]].1];
      place := place[t.order[i] := |rows| - 1];
    }
    assert rows == Rows(t);
    forall s | s in t.entry ensures s in place {
      var j :| 0 <= j < |t.order| && t.order[j] == s;
    }
  }

  lemma LocalPlaces(keys: seq<string>, t: Table, local: seq<nat>)
    requires Tracks(keys, |keys|, t) && |local| == |keys|
    requires forall i :: 0 <= i < |keys| ==> local[i] < |t.order| && t.order[local[i]] == Session(keys[i])
    ensures Places(keys, Rows(t), local)
  {
    hide Session, Final, Tracks, Rows;
    RowsLength(keys, t);
    forall i | 0 <= i < |keys| ensures Final(keys, |keys|, Session(keys[i]), Rows(t)[local[i]]) {
      RowStands(keys, t, local[i]);
    }
  }

  lemma RowsLength(keys: seq<string>, t: Table)
    requires Tracks(keys, |keys|, t)
    ensures WellFormed(t) && (forall s :: s in t.order ==> s in t.entry) && |Rows(t)| == |t.order|
  {
    hide Stands, Session, Distinct;
  }

  lemma RowStands(keys: seq<string>, t: Table, k: nat)
    requires Tracks(keys, |keys|, t) && k < |t.order|
    ensures (forall s :: s in t.order ==> s in t.entry) && k < |Rows(t)|
    ensures Final(keys, |keys|, t.order[k], Rows(t)[k])
  {
    hide Final, Session, Rank, Distinct;
    assert t.order[k] in t.entry;
    assert Stands(keys, |keys|, t.order[k], t.entry[t.order[k]]);
  }

  /** Final rows, and for every row the place of its session's final row among them. */
  method FinalSessions(keys: seq<string>) returns (r: Outcome<(seq<nat>, seq<nat>)>)
    ensures r.Ok? <==> forall i :: 0 <= i < |keys| ==> ParseKey(keys[i]).Fields?
    ensures r.Ok? ==> Selects(keys, r.value.0) && Places(keys, r.value.0, r.value.1)
    ensures r.Ok? ==> ByFirstAppearance(keys, r.value.0)
  {
    hide ParseKey, Session, Stands, Selects, Places, InOrder, ByFirstAppearance;
    var tracked :- TrackSessions(keys);
    var (t, sessions) := tracked;
    var rows, place := ListFinals(t);
    RowsSelect(keys, t);
    RowsInOrder(keys, t);
    var local: seq<nat> := [];
    for i := 0 to |sessions|
      invariant |local| == i
      invariant forall j :: 0 <= j < i ==> local[j] < |rows| && t.order[local[j]] == Session(keys[j])
    {
      local := local + [place[sessions[i]]];
    }
    LocalPlaces(keys, t, local);
    r := Ok((rows, local));
  }

  /** Row i's advantage: its mask scaled by the score of the row that stands for its session. */
  ghost predicate Scaled(keys: seq<string>, rows: seq<nat>, scores: seq<real>, i: nat, mask: seq<real>, row: seq<real>)
    requires i < |keys| && |scores| == |rows|
  {
    exists k :: 0 <= k < |rows| && Final(keys, |keys|, Session(keys[i]), rows[k])
                && row == seq(|mask|, c requires 0 <= c < |mask| => scores[k] * mask[c])
  }

  /** Group-relative advantages of a batch: `estimate` scores the selected rows, and every row is given the
      score of its own session. */
  method ScatterAdvantages(keys: seq<string>, masks: seq<seq<real>>, estimate: seq<nat> -> seq<real>)
    returns (r: Outcome<(seq<nat>, seq<seq<real>>)>)
    requires |masks| == |keys| && forall rows :: |estimate(rows)| == |rows|
    ensures r.Ok? <==> forall i :: 0 <= i < |keys| ==> ParseKey(keys[i]).Fields?
    ensures r.Ok? ==> Selects(keys, r.value.0) && ByFirstAppearance(keys, r.value.0) && |r.value.1| == |keys|
    ensures r.Ok? ==> forall i :: 0 <= i < |keys| ==>
                        Scaled(keys, r.value.0, estimate(r.value.0), i, masks[i], r.value.1[i])
  {
    hide ParseKey, Session, Final, Selects, ByFirstAppearance;
    var selected :- FinalSessions(keys);
    var (rows, local) := selected;
    var scores := estimate(rows);
    var advantages: seq<seq<real>> := [];
    for i := 0 to |keys|
      invariant |advantages| == i
      invariant forall j :: 0 <= j < i ==> Scaled(keys, rows, scores, j, masks[j], advantages[j])
    {
      var k := local[i];
      var mask := masks[i];
      advantages := advantages + [seq(|mask|, c requires 0 <= c < |mask| => scores[k] * mask[c])];
      assert Scaled(keys, rows, scores, i, mask, advantages[i]);
    }
    r := Ok((rows, advantages));
  }

  // ---------------------------------------------------------------- validation

  type Item = (string, nat)

  ghost predicate Increasing(items: seq<Item>) {
    forall i, j :: 0 <= i < j < |items| ==> items[i].1 < items[j].1
  }

  ghost predicate DistinctRows(items: seq<Item>) {
    forall i, j :: 0 <= i < j < |items| ==> items[i].1 != items[j].1
  }

  function InsertByRow(x: Item, items: seq<Item>): (r: seq<Item>)
    requires Increasing(items) && forall y :: y in items ==> y.1 != x.1
    ensures Increasing(r) && forall y :: y in r <==> y == x || y in items
  {
    if items == [] || x.1 < items[0].1 then [x] + items
    else
      var tail := InsertByRow(x, items[1..]);
      assert items == [items[0]] + items[1..];
      assert forall y :: y in tail ==> items[0].1 < y.1;
      [items[0]] + tail
  }

  /** The items ordered by row. */
  function SortByRow(items: seq<Item>): (r: seq<Item>)
    requires DistinctRows(items)
    ensures Increasing(r) && forall y :: y in r <==> y in items
  {
    if items == [] then [] else
    assert items == [items[0]] + items[1..];
    InsertByRow(items[0], SortByRow(items[1..]))
  }

  /** The loop over the batch: a key with too few fields is an entry of its own; an index that is not a
      number raises. */
  method TrackValidation(keys: seq<string>) returns (r: Outcome<Table>)
    ensures r.Ok? <==> forall i :: 0 <= i < |keys| ==> !ParseKey(keys[i]).BadIndex?
    ensures r.Ok? ==> Tracks(keys, |keys|, r.value)
  {
    hide ParseKey, Tracks;
    var t := Table([], map[]);
    NoRows(keys);
    for n := 0 to |keys|
      invariant Tracks(keys, n, t)
      invariant forall j :: 0 <= j < n ==> !ParseKey(keys[j]).BadIndex?
    {
      TrackNext(keys, n, t);
      match ParseKey(keys[n]) {
        case BadIndex => return Crash;
        case Malformed => t := t.Put(keys[n], (0, n));
        case Fields(session, index) =>
          if session !in t.entry || index > t.entry[session].0 {
            t := t.Put(session, (index, n));
          }
      }
    }
    r := Ok(t);
  }

  function Items(t: Table): seq<Item>
    requires forall s :: s in t.order ==> s in t.entry
  {
    seq(|t.order|, i requires 0 <= i < |t.order| => (t.order[i], t.entry[t.order[i]].1))
  }

  /** Where the sessions of a batch appear among the sampled outputs, the first of which is number `base`. */
  ghost predicate Numbers(keys: seq<string>, rows: seq<nat>, base: nat, sample: map<string, nat>) {
    && (forall i :: 0 <= i < |keys| ==> Session(keys[i]) in sample)
    && forall s :: s in sample ==>
         base <= sample[s] < base + |rows| && Final(keys, |keys|, s, rows[sample[s] - base])
  }

  ghost predicate Ascending(rows: seq<nat>) {
    forall i, j :: 0 <= i < j < |rows| ==> rows[i] < rows[j]
  }

  lemma SameRows(items: seq<Item>, others: seq<Item>, rows: seq<nat>, listed: seq<nat>)
    requires forall y :: y in items ==> y in others
    requires |rows| == |items| && forall i :: 0 <= i < |rows| ==> rows[i] == items[i].1
    requires |listed| == |others| && forall i :: 0 <= i < |listed| ==> listed[i] == others[i].1
    ensures forall p :: p in rows ==> p in listed
  {
    forall p | p in rows ensures p in listed {
      var i :| 0 <= i < |rows| && rows[i] == p;
      assert items[i] in others;
      var j :| 0 <= j < |others| && others[j] == items[i];
      assert listed[j] == p;
    }
  }

  /** Listing the items in another order lists the same rows. */
  lemma SortedSelects(keys: seq<string>, t: Table, items: seq<Item>, rows: seq<nat>)
    requires Tracks(keys, |keys|, t) && Increasing(items) && forall y :: y in items <==> y in Items(t)
    requires |rows| == |items| && forall i :: 0 <= i < |rows| ==> rows[i] == items[i].1
    ensures Selects(keys, rows) && Ascending(rows)
  {
    hide Stands, Session, Chosen, Distinct;
    RowsSelect(keys, t);
    SameRows(items, Items(t), rows, Rows(t));
    SameRows(Items(t), items, Rows(t), rows);
    AscendingDistinct(items, rows);
  }

  lemma AscendingDistinct(items: seq<Item>, rows: seq<nat>)
    requires Increasing(items) && |rows| == |items| && forall i :: 0 <= i < |rows| ==> rows[i] == items[i].1
    ensures Ascending(rows) && Distinct(rows)
  {
  }

  ghost predicate Numbered(items: seq<Item>, base: nat, s: string, k: nat) {
    base <= k < base + |items| && items[k - base].0 == s
  }

  /** An item of the table names the row that stands for its session. */
  lemma ItemStands(keys: seq<string>, t: Table, item: Item)
    requires Tracks(keys, |keys|, t) && item in Items(t)
    ensures Final(keys, |keys|, item.0, item.1)
  {
    hide Final, Session, Rank, Distinct;
    var i :| 0 <= i < |t.order| && Items(t)[i] == item;
    assert t.order[i] in t.entry;
    assert Stands(keys, |keys|, t.order[i], t.entry[t.order[i]]);
  }

  /** Every session is numbered by the place of its own final row. */
  lemma SampleNumbers(keys: seq<string>, t: Table, items: seq<Item>, rows: seq<nat>, base: nat, sample: map<string, nat>)
    requires Tracks(keys, |keys|, t) && forall y :: y in items ==> y in Items(t)
    requires |rows| == |items| && forall i :: 0 <= i < |rows| ==> rows[i] == items[i].1
    requires forall s :: s in t.entry ==> s in sample
    requires forall s :: s in sample ==> Numbered(items, base, s, sample[s])
    ensures Numbers(keys, rows, base, sample)
  {
    hide Final, Session, Rank, Distinct, Items, Stands, WellFormed;
    forall s | s in sample
      ensures base <= sample[s] < base + |rows| && Final(keys, |keys|, s, rows[sample[s] - base])
    {
      assert Numbered(items, base, s, sample[s]);
      ItemStands(keys, t, items[sample[s] - base]);
    }
  }

  lemma ItemsDistinct(keys: seq<string>, t: Table)
    requires Tracks(keys, |keys|, t)
    ensures DistinctRows(Items(t))
    ensures forall s :: s in t.entry ==> (s, t.entry[s].1) in Items(t)
  {
    hide Stands, Session, Chosen;
    RowsSelect(keys, t);
    assert forall i :: 0 <= i < |t.order| ==> Items(t)[i].1 == Rows(t)[i];
    forall s | s in t.entry ensures (s, t.entry[s].1) in Items(t) {
      var i :| 0 <= i < |t.order| && t.order[i] == s;
      assert Items(t)[i] == (s, t.entry[s].1);
    }
  }

  /** The rows of the items in order, and the sample number of each item's session. */
  method NumberSessions(items: seq<Item>, base: nat) returns (rows: seq<nat>, sample: map<string, nat>)
    ensures |rows| == |items| && forall i :: 0 <= i < |rows| ==> rows[i] == items[i].1
    ensures forall y :: y in items ==> y.0 in sample
    ensures forall s :: s in sample ==> Numbered(items, base, s, sample[s])
  {
    rows, sample := [], map[];
    for j := 0 to |items|
      invariant |rows| == j && forall i :: 0 <= i < j ==> rows[i] == items[i].1
      invariant forall i :: 0 <= i < j ==> items[i].0 in sample
      invariant forall s :: s in sample ==> Numbered(items, base, s, sample[s])
    {
      rows := rows + [items[j].1];
      assert Numbered(items, base, items[j].0, base + j);
      sample := sample[items[j].0 := base + j];
    }
  }

  /** The final row of every session in batch order, and the sample number of every session. */
  method ValidationFinals(keys: seq<string>, base: nat) returns (r: Outcome<(seq<nat>, map<string, nat>)>)
    ensures r.Ok? <==> forall i :: 0 <= i < |keys| ==> !ParseKey(keys[i]).BadIndex?
    ensures r.Ok? ==> Selects(keys, r.value.0) && Ascending(r.value.0) && Numbers(keys, r.value.0, base, r.value.1)
  {
    hide ParseKey, Session, Stands, Selects, Ascending, Numbers, Distinct, DistinctRows, Increasing, Items;
    var t :- TrackValidation(keys);
    ItemsDistinct(keys, t);
    var items := SortByRow(Items(t));
    var rows, sample := NumberSessions(items, base);
    SortedSelects(keys, t, items, rows);
    forall s | s in t.entry ensures s in sample {
      assert (s, t.entry[s].1) in items;
    }
    SampleNumbers(keys, t, items, rows, base, sample);
    r := Ok((rows, sample));
  }

  // ---------------------------------------------------------------- printed rows

  function Keys(rows: seq<RowId>): (keys: seq<string>)
    ensures |keys| == |rows|
  {
    seq(|rows|, i requires 0 <= i < |rows| => PrintKey(rows[i]))
  }

  predicate SameSession(r: RowId, s: RowId) {
    r.uid == s.uid && r.session == s.session
  }

  /** Row p is the first row of row i's session that no row of the session exceeds in index. */
  ghost predicate Highest(rows: seq<RowId>, i: nat, p: nat)
    requires i < |rows|
  {
    && p < |rows| && SameSession(rows[p], rows[i])
    && (forall j :: 0 <= j < |rows| && SameSession(rows[j], rows[i]) ==> rows[j].index <= rows[p].index)
    && forall j :: 0 <= j < p && SameSession(rows[j], rows[i]) ==> rows[j].index < rows[p].index
  }

  lemma PrintedRow(rows: seq<RowId>, i: nat, j: nat)
    requires i < |rows| && j < |rows|
    ensures var keys := Keys(rows);
            && ParseKey(keys[j]).Fields? && !Resets(keys[j]) && Rank(keys[j]) == rows[j].index
            && (Session(keys[j]) == Session(keys[i]) <==> SameSession(rows[j], rows[i]))
  {
    hide PrintKey, SessionKey, ParseKey;
    KeyFields(rows[i]);
    KeyFields(rows[j]);
    KeysInjective(rows[i], rows[j]);
  }

  /** On keys printed for actual rows, whatever their order and whatever the prompt ids contain, the
      selected row is the highest-index row of the same prompt and session. */
  lemma FinalIsHighest(rows: seq<RowId>, i: nat, p: nat)
    requires i < |rows|
    ensures Final(Keys(rows), |rows|, Session(Keys(rows)[i]), p) <==> Highest(rows, i, p)
  {
    hide Session, Rank, Resets, Keys, SameSession;
    forall j | 0 <= j < |rows|
      ensures !Resets(Keys(rows)[j]) && Rank(Keys(rows)[j]) == rows[j].index
      ensures Session(Keys(rows)[j]) == Session(Keys(rows)[i]) <==> SameSession(rows[j], rows[i])
    {
      PrintedRow(rows, i, j);
    }
  }

  /** Both selections take the same rows of a batch. */
  lemma SelectionsAgree(keys: seq<string>, training: seq<nat>, validation: seq<nat>)
    requires Selects(keys, training) && Selects(keys, validation)
    ensures multiset(training) == multiset(validation)
  {
    hide Chosen;
    forall p ensures multiset(training)[p] == multiset(validation)[p] {
      Once(training, p);
      Once(validation, p);
    }
  }

  lemma {:induction false} Once(rows: seq<nat>, p: nat)
    requires Distinct(rows)
    ensures multiset(rows)[p] == if p in rows then 1 else 0
  {
    if rows != [] {
      Once(rows[1..], p);
      assert rows == [rows[0]] + rows[1..];
      assert forall i :: 0 <= i < |rows| - 1 ==> rows[1..][i] == rows[i + 1];
    }
  }
}
