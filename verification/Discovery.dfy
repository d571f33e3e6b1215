/** DiscoverCandidates of internal/service/trust.go: a worklist over hosts that creates the hosts it finds
    named in NS records as it goes, and collects candidate records without repetition. */
module Discovery {
  import opened Text
  import opened TrustRecords
  import opened Wrappers

  /** A host is known by its domain and name; its row id is its position in the table. */
  datatype Host = Host(domainId: nat, fqdn: string)

  datatype Candidate = Candidate(hostId: nat, record: Record)

  /** What executeDiscoveryHost finds out about a host. */
  type Answers = Host -> seq<Record>

  datatype Error = NoTrustedHost

  // ---------- the set of hosts a discovery is about ----------

  function NsValues(rows: seq<Record>): seq<string> {
    if rows == [] then []
    else
      var last := rows[|rows| - 1];
      NsValues(rows[..|rows| - 1]) + if last.rrtype == "NS" then [Trim(last.value, IsDot)] else []
  }

  /** Some NS record that the host answers has the name as its value, dots at its ends aside. */
  ghost predicate Names(answers: Answers, h: Host, n: string) {
    n != "" && exists r :: r in answers(h) && r.rrtype == "NS" && Trim(r.value, IsDot) == n
  }

  lemma {:induction false} NsValuesRight(rows: seq<Record>)
    ensures forall n :: n in NsValues(rows) <==> exists r :: r in rows && r.rrtype == "NS" && Trim(r.value, IsDot) == n
    decreases |rows|
  {
    hide Trim;
    if rows != [] {
      var before, last := rows[..|rows| - 1], rows[|rows| - 1];
      NsValuesRight(before);
      assert rows == before + [last];
      assert NsValues(rows) == NsValues(before) + if last.rrtype == "NS" then [Trim(last.value, IsDot)] else [];
    }
  }

  lemma NamesListed(answers: Answers, h: Host)
    ensures forall n :: n != "" ==> (n in NsValues(answers(h)) <==> Names(answers, h, n))
  {
    hide Trim, NsValues;
    NsValuesRight(answers(h));
  }

  /** With a host, every host its NS records name in the same domain, the blocked ones excepted. */
  ghost predicate Closed(answers: Answers, blocked: set<Host>, hosts: set<Host>) {
    forall h, n :: h in hosts && Names(answers, h, n) && Host(h.domainId, n) !in blocked ==> Host(h.domainId, n) in hosts
  }

  ghost predicate LeastClosed(answers: Answers, blocked: set<Host>, from: set<Host>, hosts: set<Host>) {
    && from <= hosts && Closed(answers, blocked, hosts)
    && forall other: set<Host> :: from <= other && Closed(answers, blocked, other) ==> hosts <= other
  }

  lemma LeastClosedUnique(answers: Answers, blocked: set<Host>, from: set<Host>, a: set<Host>, b: set<Host>)
    requires LeastClosed(answers, blocked, from, a) && LeastClosed(answers, blocked, from, b)
    ensures a == b
  {
  }

  /** The blocked hosts make no difference exactly when none of them is named by a host of the set without being
      in the set itself. */
  lemma FullClosureExactly(answers: Answers, blocked: set<Host>, from: set<Host>, hosts: set<Host>)
    requires LeastClosed(answers, blocked, from, hosts)
    ensures LeastClosed(answers, {}, from, hosts) <==>
      forall h, n :: h in hosts && Names(answers, h, n) && Host(h.domainId, n) in blocked ==> Host(h.domainId, n) in hosts
  {
    hide Names;
    forall other: set<Host> | from <= other && Closed(answers, {}, other) ensures hosts <= other {
      assert Closed(answers, blocked, other);
    }
  }

  ghost predicate InDomainOf(from: set<Host>, h: Host) { exists f :: f in from && f.domainId == h.domainId }

  /** Discovery never leaves the domains of the selected hosts. */
  lemma StaysInDomains(answers: Answers, blocked: set<Host>, from: set<Host>, hosts: set<Host>)
    requires LeastClosed(answers, blocked, from, hosts)
    ensures forall h :: h in hosts ==> InDomainOf(from, h)
  {
    hide Names;
    var inside := set h | h in hosts && InDomainOf(from, h);
    assert Closed(answers, blocked, inside);
  }

  /** Every blocked host of a selected host's domain is selected too. */
  ghost predicate BlockedSelected(blocked: set<Host>, from: set<Host>) {
    forall b :: b in blocked && InDomainOf(from, b) ==> b in from
  }

  /** It suffices to select every blocked host of the domains concerned. */
  lemma SelectingBlockedSuffices(answers: Answers, blocked: set<Host>, from: set<Host>, hosts: set<Host>)
    requires LeastClosed(answers, blocked, from, hosts) && BlockedSelected(blocked, from)
    ensures LeastClosed(answers, {}, from, hosts)
  {
    assert from <= hosts;
    hide Names, LeastClosed, InDomainOf;
    FullClosureExactly(answers, blocked, from, hosts);
    StaysInDomains(answers, blocked, from, hosts);
    forall h, n | h in hosts && Names(answers, h, n) && Host(h.domainId, n) in blocked
      ensures Host(h.domainId, n) in hosts
    {
      SameDomain(from, h, Host(h.domainId, n));
    }
  }

  lemma SameDomain(from: set<Host>, g: Host, h: Host)
    requires InDomainOf(from, g) && g.domainId == h.domainId
    ensures InDomainOf(from, h)
  {
  }

  // ---------- the candidates of one host, and of many ----------

  /** The first record of every key, in order. */
  function FirstPerKey(id: nat, rows: seq<Record>): seq<Candidate> {
    if rows == [] then []
    else
      var before, last := rows[..|rows| - 1], rows[|rows| - 1];
      if SeenKey(id, last) in KeysOf(id, before) then FirstPerKey(id, before)
      else FirstPerKey(id, before) + [Candidate(id, last)]
  }

  function KeysOf(id: nat, rows: seq<Record>): set<string> {
    set r | r in rows :: SeenKey(id, r)
  }

  function RowsOf(answers: Answers, table: seq<Host>, id: nat): seq<Record> {
    if id < |table| then answers(table[id]) else []
  }

  function AllCandidates(answers: Answers, table: seq<Host>, ids: seq<nat>): seq<Candidate> {
    if ids == [] then []
    else
      var last := ids[|ids| - 1];
      AllCandidates(answers, table, ids[..|ids| - 1]) + FirstPerKey(last, RowsOf(answers, table, last))
  }

  ghost predicate DistinctKeys(found: seq<Candidate>) {
    forall i, j :: 0 <= i < j < |found| ==> SeenKey(found[i].hostId, found[i].record) != SeenKey(found[j].hostId, found[j].record)
  }

  /** No earlier row has the key of row i. */
  ghost predicate FirstOfKey(id: nat, rows: seq<Record>, i: nat)
    requires i < |rows|
  {
    forall j :: 0 <= j < i ==> SeenKey(id, rows[j]) != SeenKey(id, rows[i])
  }

  /** The candidates of a host are the first rows of their keys. */
  lemma {:induction false} FirstPerKeyExactly(id: nat, rows: seq<Record>)
    ensures forall c :: c in FirstPerKey(id, rows) <==>
      exists i :: 0 <= i < |rows| && c == Candidate(id, rows[i]) && FirstOfKey(id, rows, i)
    decreases |rows|
  {
    if rows != [] {
      FirstPerKeyExactly(id, rows[..|rows| - 1]);
      FirstPerKeyNext(id, rows);
      LastIsFirst(id, rows);
      hide FirstPerKey, KeysOf;
      EarlierFirst(id, rows);
    }
  }

  lemma LastIsFirst(id: nat, rows: seq<Record>)
    requires rows != []
    ensures var n := |rows| - 1; FirstOfKey(id, rows, n) <==> SeenKey(id, rows[n]) !in KeysOf(id, rows[..n])
  {
    hide SeenKey;
    var n := |rows| - 1;
    assert forall j :: 0 <= j < n ==> rows[..n][j] == rows[j] && rows[j] in rows[..n];
  }

  lemma EarlierFirst(id: nat, rows: seq<Record>)
    requires rows != []
    ensures var n := |rows| - 1; forall i :: 0 <= i < n ==> (FirstOfKey(id, rows[..n], i) <==> FirstOfKey(id, rows, i))
  {
    hide SeenKey;
    assert forall i :: 0 <= i < |rows| - 1 ==> rows[..|rows| - 1][i] == rows[i];
  }

  lemma FirstPerKeyNext(id: nat, rows: seq<Record>)
    requires rows != []
    ensures var n := |rows| - 1;
      forall c :: c in FirstPerKey(id, rows) <==>
        c in FirstPerKey(id, rows[..n]) || (c == Candidate(id, rows[n]) && SeenKey(id, rows[n]) !in KeysOf(id, rows[..n]))
  {
    hide SeenKey, KeysOf;
  }

  lemma {:induction false} FirstPerKeyRight(id: nat, rows: seq<Record>)
    ensures DistinctKeys(FirstPerKey(id, rows))
    ensures forall c :: c in FirstPerKey(id, rows) ==> c.hostId == id && c.record in rows
    ensures (set c | c in FirstPerKey(id, rows) :: SeenKey(id, c.record)) == KeysOf(id, rows)
    decreases |rows|
  {
    hide SeenKey;
    if rows != [] {
      var before, last := rows[..|rows| - 1], rows[|rows| - 1];
      FirstPerKeyRight(id, before);
      assert forall r :: r in rows <==> r in before || r == last;
      assert KeysOf(id, rows) == KeysOf(id, before) + {SeenKey(id, last)};
      var f := FirstPerKey(id, before);
      assert forall i :: 0 <= i < |f| ==> f[i] in f;
      assert forall c :: c in f + [Candidate(id, last)] <==> c in f || c == Candidate(id, last);
    }
  }

  lemma KeyHasCandidate(id: nat, rows: seq<Record>, r: Record) returns (c: Candidate)
    requires r in rows
    ensures c in FirstPerKey(id, rows) && c.hostId == id && SeenKey(id, c.record) == SeenKey(id, r)
  {
    FirstPerKeyRight(id, rows);
    assert SeenKey(id, r) in KeysOf(id, rows);
    c :| c in FirstPerKey(id, rows) && SeenKey(id, c.record) == SeenKey(id, r);
  }

  /** The candidates of a discovery come from the answers of its hosts, and no two share a key. */
  lemma {:induction false} AllCandidatesDistinct(answers: Answers, table: seq<Host>, ids: seq<nat>)
    requires forall i, j :: 0 <= i < j < |ids| ==> ids[i] != ids[j]
    ensures DistinctKeys(AllCandidates(answers, table, ids))
    ensures forall c :: c in AllCandidates(answers, table, ids) ==>
      c.hostId in ids && c.record in RowsOf(answers, table, c.hostId)
    decreases |ids|
  {
    hide SeenKey;
    if ids != [] {
      var before, last := ids[..|ids| - 1], ids[|ids| - 1];
      AllCandidatesDistinct(answers, table, before);
      var b := FirstPerKey(last, RowsOf(answers, table, last));
      FirstPerKeyRight(last, RowsOf(answers, table, last));
      hide DistinctKeys;
      OtherHostsKeys(AllCandidates(answers, table, before), b, last, before);
    }
  }

  /** Every row of every processed host is represented among the candidates. */
  lemma {:induction false} AllCandidatesCover(answers: Answers, table: seq<Host>, ids: seq<nat>, id: nat, r: Record)
    returns (c: Candidate)
    requires id in ids && r in RowsOf(answers, table, id)
    ensures c in AllCandidates(answers, table, ids) && c.hostId == id && SeenKey(id, c.record) == SeenKey(id, r)
    decreases |ids|
  {
    hide SeenKey;
    if id == ids[|ids| - 1] {
      c := KeyHasCandidate(id, RowsOf(answers, table, id), r);
    } else {
      c := AllCandidatesCover(answers, table, ids[..|ids| - 1], id, r);
    }
  }

  /** Two rows that say the same: section, name, type and trimmed value agree. */
  predicate SameFields(r: Record, s: Record) {
    r.section == s.section && r.name == s.name && r.rrtype == s.rrtype && TrimSpace(r.value) == TrimSpace(s.value)
  }

  /** Every row of a processed host without separators in its fields is among the candidates, in these words; and
      no two candidates of a host say the same. */
  ghost predicate Represents(answers: Answers, table: seq<Host>, done: seq<nat>, found: seq<Candidate>) {
    && (forall id, r :: id in done && r in RowsOf(answers, table, id) && AllSeparable(RowsOf(answers, table, id)) ==>
          exists c :: c in found && c.hostId == id && SameFields(c.record, r))
    && (forall i, j :: 0 <= i < j < |found| && found[i].hostId == found[j].hostId ==>
          !SameFields(found[i].record, found[j].record))
  }

  ghost predicate AllSeparable(rows: seq<Record>) { forall r :: r in rows ==> Separable(r) }

  lemma CandidatesRepresent(answers: Answers, table: seq<Host>, ids: seq<nat>)
    requires forall i, j :: 0 <= i < j < |ids| ==> ids[i] != ids[j]
    ensures Represents(answers, table, ids, AllCandidates(answers, table, ids))
  {
    var found := AllCandidates(answers, table, ids);
    AllCandidatesDistinct(answers, table, ids);
    forall i, j | 0 <= i < j < |found| && found[i].hostId == found[j].hostId
      ensures !SameFields(found[i].record, found[j].record)
    {
      assert SeenKey(found[i].hostId, found[i].record) != SeenKey(found[j].hostId, found[j].record);
    }
    hide AllCandidates, SeenKey, TrimSpace, Separable, DistinctKeys, RowsOf;
    forall id, r | id in ids && r in RowsOf(answers, table, id) && AllSeparable(RowsOf(answers, table, id))
      ensures exists c :: c in found && c.hostId == id && SameFields(c.record, r)
    {
      var c := AllCandidatesCover(answers, table, ids, id, r);
      SeenKeyInjective(id, c.record, id, r);
    }
  }

  lemma OtherHostsKeys(a: seq<Candidate>, b: seq<Candidate>, id: nat, ids: seq<nat>)
    requires DistinctKeys(a) && DistinctKeys(b) && id !in ids
    requires forall c :: c in a ==> c.hostId in ids
    requires forall c :: c in b ==> c.hostId == id
    ensures DistinctKeys(a + b)
  {
    var all := a + b;
    forall i, j | 0 <= i < j < |all|
      ensures SeenKey(all[i].hostId, all[i].record) != SeenKey(all[j].hostId, all[j].record)
    {
      if i < |a| <= j {
        assert all[i] in a && all[j] in b;
        if SeenKey(all[i].hostId, all[i].record) == SeenKey(all[j].hostId, all[j].record) {
          SeenKeyOfHosts(all[i].hostId, all[i].record, all[j].hostId, all[j].record);
        }
      }
    }
  }

  // ---------- the host table ----------

  /** The columns, besides domain and name, that the lookup of a name server compares. */
  datatype Attributes = Attributes(source: string, status: string, enabled: bool, notes: string)

  const NS_HOST := Attributes("manual", "draft", true, "role=ns_host; auto discovered from apex NS")

  datatype HostRow = HostRow(host: Host, attributes: Attributes)

  ghost predicate Distinct(hosts: seq<Host>) {
    forall i, j :: 0 <= i < j < |hosts| ==> hosts[i] != hosts[j]
  }

  ghost function Hosts(rows: seq<HostRow>): seq<Host> {
    seq(|rows|, i requires 0 <= i < |rows| => rows[i].host)
  }

  /** Hosts that are in the table with other attributes than those of a discovered name server: approved,
      disabled, from another source, or with notes of their own. */
  ghost function Blocked(rows: seq<HostRow>): set<Host> {
    set r | r in rows && r.attributes != NS_HOST :: r.host
  }

  datatype Lookup = Found(id: nat) | Created(id: nat) | Failed

  class HostTable {
    var rows: seq<HostRow>

    /** The unique key of dns_trust_hosts. */
    ghost predicate Valid()
      reads this
    {
      Distinct(Hosts(rows))
    }

    /** The lookup compares all attributes, and what it does not find it inserts; the insert fails on the unique
        key when the host is there with other attributes. */
    method FirstOrCreate(h: Host) returns (r: Lookup)
      requires Valid()
      modifies this
      ensures Valid()
      ensures r.Failed? <==> h in Blocked(old(rows))
      ensures r.Created? <==> h !in Hosts(old(rows))
      ensures !r.Failed? ==> r.id < |rows| && rows[r.id] == HostRow(h, NS_HOST)
      ensures rows == if r.Created? then old(rows) + [HostRow(h, NS_HOST)] else old(rows)
    {
      var taken := false;
      for id := 0 to |rows|
        invariant taken <==> exists i :: 0 <= i < id && rows[i].host == h
        invariant forall i :: 0 <= i < id ==> rows[i] != HostRow(h, NS_HOST)
      {
        if rows[id] == HostRow(h, NS_HOST) {
          UniqueHost(rows, id);
          return Found(id);
        }
        if rows[id].host == h { taken := true; }
      }
      if taken {
        var i :| 0 <= i < |rows| && rows[i].host == h;
        assert rows[i] in rows && Hosts(rows)[i] == h;
        return Failed;
      }
      assert forall i :: 0 <= i < |rows| ==> Hosts(rows)[i] == rows[i].host;
      rows := rows + [HostRow(h, NS_HOST)];
      return Created(|rows| - 1);
    }
  }

  lemma UniqueHost(rows: seq<HostRow>, id: nat)
    requires Distinct(Hosts(rows)) && id < |rows| && rows[id].attributes == NS_HOST
    ensures rows[id].host !in Blocked(rows) && rows[id].host in Hosts(rows)
  {
    assert Hosts(rows)[id] == rows[id].host;
    forall r | r in rows && r.host == rows[id].host ensures r == rows[id] {
      var i :| 0 <= i < |rows| && rows[i] == r;
      assert Hosts(rows)[i] == Hosts(rows)[id];
    }
  }

  lemma InsertedRow(rows: seq<HostRow>, h: Host)
    ensures Hosts(rows + [HostRow(h, NS_HOST)]) == Hosts(rows) + [h]
    ensures Blocked(rows + [HostRow(h, NS_HOST)]) == Blocked(rows)
  {
  }

  // ---------- the two inner loops ----------

  method CollectRows(id: nat, rows: seq<Record>, seenBefore: set<string>, before: seq<Candidate>)
    returns (seen: set<string>, found: seq<Candidate>)
    requires forall r :: r in rows ==> SeenKey(id, r) !in seenBefore
    ensures seen == seenBefore + KeysOf(id, rows)
    ensures found == before + FirstPerKey(id, rows)
  {
    hide SeenKey;
    seen, found := seenBefore, before;
    for k := 0 to |rows|
      invariant seen == seenBefore + KeysOf(id, rows[..k])
      invariant found == before + FirstPerKey(id, rows[..k])
    {
      var key := SeenKey(id, rows[k]);
      assert rows[..k + 1][..k] == rows[..k];
      assert rows[..k + 1] == rows[..k] + [rows[k]];
      assert KeysOf(id, rows[..k + 1]) == KeysOf(id, rows[..k]) + {key};
      assert key !in seenBefore;
      if key !in seen {
        seen, found := seen + {key}, found + [Candidate(id, rows[k])];
      }
    }
    assert rows[..|rows|] == rows;
  }

  /** The hosts of a list of row ids. */
  ghost function HostsOf(table: seq<Host>, ids: seq<nat>): set<Host> {
    set id | id in ids && id < |table| :: table[id]
  }

  ghost function Done(table: seq<Host>, processed: set<nat>): set<Host> {
    set id | id in processed && id < |table| :: table[id]
  }

  predicate Followable(domainId: nat, n: string, blocked: set<Host>) { n != "" && Host(domainId, n) !in blocked }

  ghost predicate QueueOk(more: seq<Host>, domainId: nat, names: seq<string>, blocked: set<Host>, before: seq<nat>,
                          queue: seq<nat>, universe: set<Host>)
  {
    && before <= queue
    && (forall id :: id in queue ==> id < |more| && more[id] in universe)
    && (forall id :: id in queue ==>
          id in before || exists n :: n in names && Followable(domainId, n, blocked) && more[id] == Host(domainId, n))
  }

  ghost predicate NamesCovered(more: seq<Host>, domainId: nat, names: seq<string>, blocked: set<Host>,
                               processed: set<nat>, queue: seq<nat>)
  {
    forall n :: n in names && Followable(domainId, n, blocked) ==>
      Host(domainId, n) in Done(more, processed) + HostsOf(more, queue)
  }

  ghost predicate NewQueued(table: seq<Host>, more: seq<Host>, queue: seq<nat>) {
    forall k :: |table| <= k < |more| ==> more[k] in HostsOf(more, queue)
  }

  /** What following the names of one host does to the table (`table` to `more`) and the queue. */
  ghost predicate Followed(table: seq<Host>, more: seq<Host>, domainId: nat, names: seq<string>, blocked: set<Host>,
                           processed: set<nat>, before: seq<nat>, queue: seq<nat>, universe: set<Host>)
  {
    && Distinct(more) && table <= more
    && QueueOk(more, domainId, names, blocked, before, queue, universe)
    && NamesCovered(more, domainId, names, blocked, processed, queue)
    && NewQueued(table, more, queue)
  }

  function Queued(processed: set<nat>, queue: seq<nat>, id: nat): seq<nat> {
    if id in processed then queue else queue + [id]
  }

  lemma QueueOneMore(rows: seq<Host>, more: seq<Host>, domainId: nat, names: seq<string>, blocked: set<Host>,
                     processed: set<nat>, before: seq<nat>, queue: seq<nat>, id: nat, n: string, universe: set<Host>)
    requires QueueOk(rows, domainId, names, blocked, before, queue, universe) && rows <= more
    requires id < |more| && more[id] == Host(domainId, n) && more[id] in universe && Followable(domainId, n, blocked)
    ensures QueueOk(more, domainId, names + [n], blocked, before, Queued(processed, queue, id), universe)
  {
    hide Followable;
    var next, all := Queued(processed, queue, id), names + [n];
    assert n in all && forall m :: m in names ==> m in all;
    forall j | j in next
      ensures j < |more| && more[j] in universe
      ensures j in before || exists m :: m in all && Followable(domainId, m, blocked) && more[j] == Host(domainId, m)
    {
      if j in queue {
        assert rows[j] == more[j];
      } else {
        assert j == id;
      }
    }
  }

  lemma HostsGrow(rows: seq<Host>, more: seq<Host>, processed: set<nat>, queue: seq<nat>, id: nat)
    requires rows <= more && id < |more|
    ensures HostsOf(rows, queue) <= HostsOf(more, Queued(processed, queue, id))
    ensures Done(rows, processed) <= Done(more, processed)
    ensures more[id] in Done(more, processed) + HostsOf(more, Queued(processed, queue, id))
    ensures id !in processed ==> more[id] in HostsOf(more, Queued(processed, queue, id))
  {
    var next := Queued(processed, queue, id);
    assert forall j :: j in queue ==> j in next;
    assert id !in processed ==> id in next;
  }

  lemma NamesOneMore(rows: seq<Host>, more: seq<Host>, domainId: nat, names: seq<string>, blocked: set<Host>,
                     processed: set<nat>, queue: seq<nat>, id: nat, n: string)
    requires NamesCovered(rows, domainId, names, blocked, processed, queue) && rows <= more
    requires id < |more| && more[id] == Host(domainId, n)
    ensures NamesCovered(more, domainId, names + [n], blocked, processed, Queued(processed, queue, id))
  {
    HostsGrow(rows, more, processed, queue, id);
    hide HostsOf, Done, Queued, Followable;
    assert forall m :: m in names + [n] <==> m in names || m == n;
  }

  lemma NewOneMore(table: seq<Host>, rows: seq<Host>, more: seq<Host>, processed: set<nat>, queue: seq<nat>, id: nat)
    requires NewQueued(table, rows, queue) && table <= rows <= more && id < |more|
    requires more == rows || (|more| == |rows| + 1 && id == |rows| && id !in processed)
    ensures NewQueued(table, more, Queued(processed, queue, id))
  {
    HostsGrow(rows, more, processed, queue, id);
    hide HostsOf, Done, Queued;
    forall k | |table| <= k < |more| ensures more[k] in HostsOf(more, Queued(processed, queue, id)) {
      assert k < |rows| ==> more[k] == rows[k];
    }
  }

  lemma FollowedOneMore(table: seq<Host>, rows: seq<Host>, more: seq<Host>, domainId: nat, names: seq<string>,
                        blocked: set<Host>, processed: set<nat>, before: seq<nat>, queue: seq<nat>, id: nat, n: string,
                        universe: set<Host>)
    requires Followed(table, rows, domainId, names, blocked, processed, before, queue, universe)
    requires forall i :: i in processed ==> i < |rows|
    requires Distinct(more) && id < |more| && more[id] == Host(domainId, n) && more[id] in universe
    requires Followable(domainId, n, blocked)
    requires more == rows || (more == rows + [Host(domainId, n)] && id == |rows|)
    ensures Followed(table, more, domainId, names + [n], blocked, processed, before, Queued(processed, queue, id), universe)
  {
    hide HostsOf, Done, QueueOk, NamesCovered, NewQueued, Queued, Followable, Distinct;
    QueueOneMore(rows, more, domainId, names, blocked, processed, before, queue, id, n, universe);
    NamesOneMore(rows, more, domainId, names, blocked, processed, queue, id, n);
    NewOneMore(table, rows, more, processed, queue, id);
  }

  /** Every named host that is not blocked is created when missing, and queued unless it was processed; a lookup
      that fails is passed over. */
  method FollowNames(t: HostTable, domainId: nat, names: seq<string>, processed: set<nat>, before: seq<nat>,
                     ghost universe: set<Host>)
    returns (queue: seq<nat>)
    requires t.Valid()
    requires forall id :: id in processed ==> id < |t.rows|
    requires forall id :: id in before ==> id < |t.rows| && t.rows[id].host in universe
    requires forall n :: n in names && Followable(domainId, n, Blocked(t.rows)) ==> Host(domainId, n) in universe
    modifies t
    ensures t.Valid() && old(t.rows) <= t.rows && Blocked(t.rows) == Blocked(old(t.rows))
    ensures forall i :: |old(t.rows)| <= i < |t.rows| ==> t.rows[i].attributes == NS_HOST
    ensures Followed(Hosts(old(t.rows)), Hosts(t.rows), domainId, names, Blocked(old(t.rows)), processed, before, queue, universe)
  {
    ghost var first, blocked := Hosts(t.rows), Blocked(t.rows);
    queue := before;
    FollowedNothing(first, domainId, blocked, processed, before, universe);
    for k := 0 to |names|
      invariant t.Valid() && old(t.rows) <= t.rows && Blocked(t.rows) == blocked
      invariant forall i :: |old(t.rows)| <= i < |t.rows| ==> t.rows[i].attributes == NS_HOST
      invariant Followed(first, Hosts(t.rows), domainId, names[..k], blocked, processed, before, queue, universe)
    {
      hide Followed, Blocked, Distinct;
      assert names[..k + 1] == names[..k] + [names[k]];
      ghost var rows := t.rows;
      if names[k] == "" {
        FollowedUnfollowable(first, Hosts(rows), domainId, names[..k], blocked, processed, before, queue, names[k], universe);
        continue;
      }
      assert names[k] in names;
      var r := t.FirstOrCreate(Host(domainId, names[k]));
      if r.Failed? {
        FollowedUnfollowable(first, Hosts(rows), domainId, names[..k], blocked, processed, before, queue, names[k], universe);
        continue;
      }
      InsertedRow(rows, Host(domainId, names[k]));
      FollowedOneMore(first, Hosts(rows), Hosts(t.rows), domainId, names[..k], blocked, processed, before, queue, r.id,
                      names[k], universe);
      if r.id !in processed {
        queue := queue + [r.id];
      }
    }
    assert names[..|names|] == names;
  }

  lemma FollowedNothing(table: seq<Host>, domainId: nat, blocked: set<Host>, processed: set<nat>, before: seq<nat>,
                        universe: set<Host>)
    requires Distinct(table) && forall id :: id in before ==> id < |table| && table[id] in universe
    ensures Followed(table, table, domainId, [], blocked, processed, before, before, universe)
  {
  }

  lemma FollowedUnfollowable(table: seq<Host>, more: seq<Host>, domainId: nat, names: seq<string>, blocked: set<Host>,
                             processed: set<nat>, before: seq<nat>, queue: seq<nat>, n: string, universe: set<Host>)
    requires !Followable(domainId, n, blocked)
    requires Followed(table, more, domainId, names, blocked, processed, before, queue, universe)
    ensures Followed(table, more, domainId, names + [n], blocked, processed, before, queue, universe)
  {
    hide Followable, HostsOf, Done, NewQueued, Distinct;
    assert forall m :: m in names + [n] <==> m in names || m == n;
  }

  // ---------- the worklist ----------

  datatype Discovered = Discovered(processed: seq<nat>, candidates: seq<Candidate>)

  /** What the loop keeps: everything reached is needed, and everything named by a processed host and not
      blocked is processed or queued. */
  ghost predicate Frontier(answers: Answers, blocked: set<Host>, table: seq<Host>, selected: seq<nat>, done: seq<nat>,
                           queue: seq<nat>)
  {
    var reached := HostsOf(table, done) + HostsOf(table, queue);
    && Distinct(table)
    && (forall id :: id in done || id in queue ==> id < |table|)
    && (forall i, j :: 0 <= i < j < |done| ==> done[i] != done[j])
    && HostsOf(table, selected) <= reached
    && (forall h, n :: h in HostsOf(table, done) && Names(answers, h, n) && Host(h.domainId, n) !in blocked
          ==> Host(h.domainId, n) in reached)
    && (forall other: set<Host> ::
          HostsOf(table, selected) <= other && Closed(answers, blocked, other) ==> reached <= other)
  }

  lemma FrontierEmpty(answers: Answers, blocked: set<Host>, table: seq<Host>, selected: seq<nat>, done: seq<nat>)
    requires Frontier(answers, blocked, table, selected, done, [])
    ensures LeastClosed(answers, blocked, HostsOf(table, selected), HostsOf(table, done))
  {
    assert HostsOf(table, []) == {};
  }

  /** A queued host that has been processed already. */
  lemma FrontierSkip(answers: Answers, blocked: set<Host>, table: seq<Host>, selected: seq<nat>, done: seq<nat>,
                     queue: seq<nat>)
    requires Frontier(answers, blocked, table, selected, done, queue) && queue != [] && queue[0] in done
    ensures Frontier(answers, blocked, table, selected, done, queue[1..])
  {
    assert forall id :: id in queue <==> id == queue[0] || id in queue[1..];
    assert HostsOf(table, done) + HostsOf(table, queue[1..]) == HostsOf(table, done) + HostsOf(table, queue);
  }

  lemma HostsOfGrows(table: seq<Host>, more: seq<Host>, ids: seq<nat>)
    requires table <= more && forall id :: id in ids ==> id < |table|
    ensures HostsOf(more, ids) == HostsOf(table, ids)
  {
  }

  /** A queued host is processed, and what it names is queued. */
  lemma FrontierStep(answers: Answers, blocked: set<Host>, table: seq<Host>, more: seq<Host>, selected: seq<nat>,
                     done: seq<nat>, queue: seq<nat>, next: seq<nat>)
    requires Frontier(answers, blocked, table, selected, done, queue) && queue != [] && queue[0] !in done
    requires forall id :: id in selected ==> id < |table|
    requires table <= more && Distinct(more)
    requires queue[1..] <= next && forall id :: id in next ==> id < |more|
    requires var h := table[queue[0]];
      && (forall id :: id in next && id !in queue[1..] ==>
            exists n :: Names(answers, h, n) && more[id] == Host(h.domainId, n) && more[id] !in blocked)
      && (forall n :: Names(answers, h, n) && Host(h.domainId, n) !in blocked ==>
            Host(h.domainId, n) in HostsOf(more, done + [queue[0]]) + HostsOf(more, next))
    ensures Frontier(answers, blocked, more, selected, done + [queue[0]], next)
  {
    var h, now := table[queue[0]], done + [queue[0]];
    HostsOfGrows(table, more, selected);
    HostsOfGrows(table, more, done);
    HostsOfGrows(table, more, queue);
    assert forall id :: id in now <==> id in done || id == queue[0];
    assert forall id :: id in queue ==> id == queue[0] || id in queue[1..];
    assert forall id :: id in queue[1..] ==> id in next;
    var reached := HostsOf(table, done) + HostsOf(table, queue);
    assert HostsOf(more, now) == HostsOf(table, done) + {h};
    assert h in HostsOf(table, queue);
    assert reached <= HostsOf(more, now) + HostsOf(more, next);
    forall other: set<Host> | HostsOf(more, selected) <= other && Closed(answers, blocked, other)
      ensures HostsOf(more, now) + HostsOf(more, next) <= other
    {
      assert reached <= other;
      forall id | id in next ensures more[id] in other {
        if id !in queue[1..] {
          var n :| Names(answers, h, n) && more[id] == Host(h.domainId, n) && more[id] !in blocked;
        } else {
          assert more[id] in HostsOf(table, queue);
        }
      }
    }
  }

  // ---------- one turn of the loop ----------

  /** Every key seen so far belongs to a processed host. */
  ghost predicate SeenOnly(seen: set<string>, done: seq<nat>) {
    forall k :: k in seen ==> exists id, r: Record :: id in done && k == SeenKey(id, r)
  }

  lemma NewHostUnseen(seen: set<string>, done: seq<nat>, id: nat, rows: seq<Record>)
    requires SeenOnly(seen, done) && id !in done
    ensures forall r :: r in rows ==> SeenKey(id, r) !in seen
    ensures SeenOnly(seen + KeysOf(id, rows), done + [id])
  {
    hide SeenKey;
    forall r | r in rows ensures SeenKey(id, r) !in seen {
      if SeenKey(id, r) in seen {
        var other, s: Record :| other in done && SeenKey(id, r) == SeenKey(other, s);
        SeenKeyOfHosts(id, r, other, s);
      }
    }
    forall k | k in seen + KeysOf(id, rows) ensures exists i, r: Record :: i in done + [id] && k == SeenKey(i, r) {
      if k in seen {
        var i, r: Record :| i in done && k == SeenKey(i, r);
        assert i in done + [id];
      } else {
        var r :| r in rows && k == SeenKey(id, r);
        assert id in done + [id];
      }
    }
  }

  lemma {:induction false} CandidatesGrow(answers: Answers, table: seq<Host>, more: seq<Host>, ids: seq<nat>)
    requires table <= more && forall i :: 0 <= i < |ids| ==> ids[i] < |table|
    ensures AllCandidates(answers, more, ids) == AllCandidates(answers, table, ids)
    decreases |ids|
  {
    if ids != [] {
      CandidatesGrow(answers, table, more, ids[..|ids| - 1]);
    }
  }

  lemma CandidatesStep(answers: Answers, table: seq<Host>, more: seq<Host>, ids: seq<nat>, id: nat)
    requires table <= more && id < |table| && forall i :: i in ids ==> i < |table|
    ensures AllCandidates(answers, more, ids + [id])
         == AllCandidates(answers, table, ids) + FirstPerKey(id, answers(table[id]))
  {
    assert forall k :: 0 <= k < |ids| ==> ids[k] in ids;
    CandidatesGrow(answers, table, more, ids);
    assert (ids + [id])[..|ids|] == ids;
  }

  lemma FewerLeft(table: seq<Host>, more: seq<Host>, done: seq<nat>, id: nat, universe: set<Host>)
    requires Distinct(table) && table <= more && id < |table| && id !in done && table[id] in universe
    requires forall i :: i in done ==> i < |table|
    requires HostsOf(table, done) <= universe
    ensures HostsOf(more, done + [id]) <= universe
    ensures |universe - HostsOf(more, done + [id])| < |universe - HostsOf(table, done)|
  {
    HostsOfGrows(table, more, done);
    assert forall i :: i in done + [id] <==> i in done || i == id;
    assert HostsOf(more, done + [id]) == HostsOf(table, done) + {table[id]};
    assert table[id] !in HostsOf(table, done);
    assert universe - HostsOf(more, done + [id]) == (universe - HostsOf(table, done)) - {table[id]};
  }

  /** The loop's variables. */
  datatype Turn = Turn(done: seq<nat>, queue: seq<nat>, processed: set<nat>, seen: set<string>, candidates: seq<Candidate>)

  ghost predicate TurnOk(answers: Answers, blocked: set<Host>, start: nat, selected: seq<nat>, universe: set<Host>,
                         table: seq<Host>, v: Turn)
  {
    && (forall id :: id in selected ==> id < start <= |table|)
    && Closed(answers, blocked, universe)
    && Frontier(answers, blocked, table, selected, v.done, v.queue)
    && v.processed == (set id | id in v.done)
    && (forall id :: id in v.queue ==> id < |table| && table[id] in universe)
    && HostsOf(table, v.done) <= universe
    && v.candidates == AllCandidates(answers, table, v.done)
    && SeenOnly(v.seen, v.done)
    && (forall k :: start <= k < |table| ==> k in v.done || k in v.queue)
  }

  /** One turn: host queue[0] has been processed; `table` became `more`, and the queue `queue`. */
  ghost predicate Turned(answers: Answers, blocked: set<Host>, start: nat, selected: seq<nat>, universe: set<Host>,
                  table: seq<Host>, more: seq<Host>, v: Turn, queue: seq<nat>)
  {
    && TurnOk(answers, blocked, start, selected, universe, table, v)
    && v.queue != [] && v.queue[0] !in v.processed && v.queue[0] < |table|
    && var h := table[v.queue[0]];
       Followed(table, more, h.domainId, NsValues(answers(h)), blocked, v.processed + {v.queue[0]}, v.queue[1..], queue, universe)
  }

  function NextTurn(answers: Answers, table: seq<Host>, v: Turn, queue: seq<nat>): Turn
    requires v.queue != [] && v.queue[0] < |table|
  {
    var id := v.queue[0];
    var rows := answers(table[id]);
    Turn(v.done + [id], queue, v.processed + {id}, v.seen + KeysOf(id, rows), v.candidates + FirstPerKey(id, rows))
  }

  lemma NamedQueued(answers: Answers, h: Host, more: seq<Host>, blocked: set<Host>, before: seq<nat>, queue: seq<nat>)
    requires forall id :: id in queue ==> id < |more|
    requires forall id :: id in queue && id !in before ==>
      exists n :: n in NsValues(answers(h)) && Followable(h.domainId, n, blocked) && more[id] == Host(h.domainId, n)
    ensures forall id :: id in queue && id !in before ==>
      exists n :: Names(answers, h, n) && more[id] == Host(h.domainId, n) && more[id] !in blocked
    ensures forall n :: Names(answers, h, n) && Host(h.domainId, n) !in blocked ==>
      n in NsValues(answers(h)) && Followable(h.domainId, n, blocked)
  {
    hide Names, NsValues;
    NamesListed(answers, h);
    NamesNotEmpty(answers, h);
    forall id | id in queue && id !in before
      ensures exists n :: Names(answers, h, n) && more[id] == Host(h.domainId, n) && more[id] !in blocked
    {
      var n :| n in NsValues(answers(h)) && Followable(h.domainId, n, blocked) && more[id] == Host(h.domainId, n);
      assert Names(answers, h, n);
    }
  }

  lemma NamesNotEmpty(answers: Answers, h: Host)
    ensures forall n :: Names(answers, h, n) ==> n != ""
  {
  }

  lemma TurnedFrontier(answers: Answers, blocked: set<Host>, start: nat, selected: seq<nat>, universe: set<Host>,
                  table: seq<Host>, more: seq<Host>, v: Turn, queue: seq<nat>)
    requires Turned(answers, blocked, start, selected, universe, table, more, v, queue)
    ensures Frontier(answers, blocked, more, selected, v.done + [v.queue[0]], queue)
    ensures v.processed + {v.queue[0]} == set id | id in v.done + [v.queue[0]]
  {
    hide AllCandidates, NsValues, SeenOnly, Names;
    var id, done := v.queue[0], v.done + [v.queue[0]];
    assert forall i :: i in done <==> i in v.done || i == id;
    assert Done(more, v.processed + {id}) == HostsOf(more, done);
    NamedQueued(answers, table[id], more, blocked, v.queue[1..], queue);
    hide Followable;
    FrontierStep(answers, blocked, table, more, selected, v.done, v.queue, queue);
  }

  lemma TurnedRecords(answers: Answers, blocked: set<Host>, start: nat, selected: seq<nat>, universe: set<Host>,
                  table: seq<Host>, more: seq<Host>, v: Turn, queue: seq<nat>)
    requires Turned(answers, blocked, start, selected, universe, table, more, v, queue)
    ensures var w := NextTurn(answers, table, v, queue);
      w.candidates == AllCandidates(answers, more, w.done) && SeenOnly(w.seen, w.done)
  {
    hide AllCandidates, FirstPerKey, KeysOf, NsValues, SeenOnly, HostsOf, Done, Closed;
    NewHostUnseen(v.seen, v.done, v.queue[0], answers(table[v.queue[0]]));
    CandidatesStep(answers, table, more, v.done, v.queue[0]);
  }

  lemma TurnedRows(answers: Answers, blocked: set<Host>, start: nat, selected: seq<nat>, universe: set<Host>,
                  table: seq<Host>, more: seq<Host>, v: Turn, queue: seq<nat>)
    requires Turned(answers, blocked, start, selected, universe, table, more, v, queue)
    ensures forall k :: start <= k < |more| ==> k in v.done + [v.queue[0]] || k in queue
    ensures forall id :: id in queue ==> id < |more| && more[id] in universe
    ensures |table| <= |more|
  {
    hide AllCandidates, NsValues, SeenOnly, Done, Closed;
    NewRowsQueued(more, |table|, v.done, queue);
    KeptInView(start, |table|, |more|, v.done, v.queue, v.done + [v.queue[0]], queue);
  }

  lemma TurnedSize(answers: Answers, blocked: set<Host>, start: nat, selected: seq<nat>, universe: set<Host>,
                  table: seq<Host>, more: seq<Host>, v: Turn, queue: seq<nat>)
    requires Turned(answers, blocked, start, selected, universe, table, more, v, queue)
    ensures HostsOf(more, v.done + [v.queue[0]]) <= universe
    ensures |universe - HostsOf(more, v.done + [v.queue[0]])| < |universe - HostsOf(table, v.done)|
  {
    hide AllCandidates, NsValues, SeenOnly, Done, Closed;
    assert v.queue[0] in v.queue;
    FewerLeft(table, more, v.done, v.queue[0], universe);
  }

  lemma TurnKeeps(answers: Answers, blocked: set<Host>, start: nat, selected: seq<nat>, universe: set<Host>,
                  table: seq<Host>, more: seq<Host>, v: Turn, queue: seq<nat>)
    requires Turned(answers, blocked, start, selected, universe, table, more, v, queue)
    ensures TurnOk(answers, blocked, start, selected, universe, more, NextTurn(answers, table, v, queue))
    ensures |universe - HostsOf(more, v.done + [v.queue[0]])| < |universe - HostsOf(table, v.done)|
  {
    hide AllCandidates, NsValues, SeenOnly, Done, Closed, Frontier, HostsOf, Followed, FirstPerKey, KeysOf;
    TurnedFrontier(answers, blocked, start, selected, universe, table, more, v, queue);
    TurnedRecords(answers, blocked, start, selected, universe, table, more, v, queue);
    TurnedRows(answers, blocked, start, selected, universe, table, more, v, queue);
    TurnedSize(answers, blocked, start, selected, universe, table, more, v, queue);
  }

  method ProcessHost(t: HostTable, answers: Answers, ghost blocked: set<Host>, ghost start: nat,
                     ghost selected: seq<nat>, ghost universe: set<Host>, v: Turn)
    returns (w: Turn)
    requires t.Valid() && blocked == Blocked(t.rows)
    requires TurnOk(answers, blocked, start, selected, universe, Hosts(t.rows), v)
    requires v.queue != [] && v.queue[0] !in v.processed
    modifies t
    ensures t.Valid() && old(t.rows) <= t.rows && Blocked(t.rows) == blocked
    ensures forall i :: |old(t.rows)| <= i < |t.rows| ==> t.rows[i].attributes == NS_HOST
    ensures TurnOk(answers, blocked, start, selected, universe, Hosts(t.rows), w)
    ensures |universe - HostsOf(Hosts(t.rows), w.done)| < |universe - HostsOf(Hosts(old(t.rows)), v.done)|
  {
    ghost var table := Hosts(t.rows);
    assert |table| == |t.rows| && forall i :: 0 <= i < |table| ==> table[i] == t.rows[i].host;
    hide *;
    TurnReady(answers, blocked, start, selected, universe, table, v);
    var id, rest := v.queue[0], v.queue[1..];
    var h := t.rows[id].host;
    var rows := answers(h);
    var seen, candidates := CollectRows(id, rows, v.seen, v.candidates);
    var queue := FollowNames(t, h.domainId, NsValues(rows), v.processed + {id}, rest, universe);
    TurnedNow(answers, blocked, start, selected, universe, table, Hosts(t.rows), v, queue);
    TurnKeeps(answers, blocked, start, selected, universe, table, Hosts(t.rows), v, queue);
    NextTurnIs(answers, table, v, queue);
    w := Turn(v.done + [id], queue, v.processed + {id}, seen, candidates);
  }

  lemma TurnedNow(answers: Answers, blocked: set<Host>, start: nat, selected: seq<nat>, universe: set<Host>,
                  table: seq<Host>, more: seq<Host>, v: Turn, queue: seq<nat>)
    requires TurnOk(answers, blocked, start, selected, universe, table, v)
    requires v.queue != [] && v.queue[0] !in v.processed && v.queue[0] < |table|
    requires Followed(table, more, table[v.queue[0]].domainId, NsValues(answers(table[v.queue[0]])), blocked,
                      v.processed + {v.queue[0]}, v.queue[1..], queue, universe)
    ensures Turned(answers, blocked, start, selected, universe, table, more, v, queue)
  {
  }

  lemma NextTurnIs(answers: Answers, table: seq<Host>, v: Turn, queue: seq<nat>)
    requires v.queue != [] && v.queue[0] < |table|
    ensures var id, rows := v.queue[0], answers(table[v.queue[0]]);
      NextTurn(answers, table, v, queue)
        == Turn(v.done + [id], queue, v.processed + {id}, v.seen + KeysOf(id, rows), v.candidates + FirstPerKey(id, rows))
  {
  }

  lemma TurnReady(answers: Answers, blocked: set<Host>, start: nat, selected: seq<nat>, universe: set<Host>,
                  table: seq<Host>, v: Turn)
    requires TurnOk(answers, blocked, start, selected, universe, table, v)
    requires v.queue != [] && v.queue[0] !in v.processed
    ensures v.queue[0] < |table|
    ensures forall r :: r in answers(table[v.queue[0]]) ==> SeenKey(v.queue[0], r) !in v.seen
    ensures forall id :: id in v.processed + {v.queue[0]} ==> id < |table|
    ensures forall id :: id in v.queue[1..] ==> id < |table| && table[id] in universe
    ensures forall n :: n in NsValues(answers(table[v.queue[0]])) && Followable(table[v.queue[0]].domainId, n, blocked) ==>
      Host(table[v.queue[0]].domainId, n) in universe
  {
    hide SeenKey, NsValues;
    var id := v.queue[0];
    assert id in v.queue && forall i :: i in v.queue[1..] ==> i in v.queue;
    NewHostUnseen(v.seen, v.done, id, answers(table[id]));
    NamesListed(answers, table[id]);
    forall n | n in NsValues(answers(table[id])) && Followable(table[id].domainId, n, blocked)
      ensures Host(table[id].domainId, n) in universe
    {
      assert Names(answers, table[id], n);
    }
  }

  lemma NewRowsQueued(table: seq<Host>, was: nat, done: seq<nat>, queue: seq<nat>)
    requires Distinct(table) && forall id :: id in queue ==> id < |table|
    requires forall k :: was <= k < |table| ==> table[k] in HostsOf(table, queue)
    ensures forall k :: was <= k < |table| ==> k in queue
  {
    forall k | was <= k < |table| ensures k in queue {
      assert table[k] in HostsOf(table, queue);
      var id :| id in queue && id < |table| && table[id] == table[k];
      assert id == k;
    }
  }

  lemma KeptInView(start: nat, was: nat, now: nat, done: seq<nat>, queue: seq<nat>, doneNow: seq<nat>, queueNow: seq<nat>)
    requires queue != [] && doneNow == done + [queue[0]] && queue[1..] <= queueNow
    requires forall k :: start <= k < was ==> k in done || k in queue
    requires forall k :: was <= k < now ==> k in queueNow
    ensures forall k :: start <= k < now ==> k in doneNow || k in queueNow
  {
    forall k | start <= k < now ensures k in doneNow || k in queueNow {
      if k < was && k !in done {
        assert k == queue[0] || k in queue[1..];
      }
    }
  }

  lemma SkipKeeps(answers: Answers, blocked: set<Host>, start: nat, selected: seq<nat>, universe: set<Host>,
                  table: seq<Host>, v: Turn)
    requires TurnOk(answers, blocked, start, selected, universe, table, v)
    requires v.queue != [] && v.queue[0] in v.processed
    ensures TurnOk(answers, blocked, start, selected, universe, table, v.(queue := v.queue[1..]))
  {
    hide AllCandidates, SeenOnly;
    FrontierSkip(answers, blocked, table, selected, v.done, v.queue);
    assert forall id :: id in v.queue <==> id == v.queue[0] || id in v.queue[1..];
  }

  lemma FirstTurn(answers: Answers, blocked: set<Host>, selected: seq<nat>, universe: set<Host>, table: seq<Host>)
    requires Distinct(table) && forall id :: id in selected ==> id < |table|
    requires Closed(answers, blocked, universe) && HostsOf(table, selected) <= universe
    ensures TurnOk(answers, blocked, |table|, selected, universe, table, Turn([], selected, {}, {}, []))
  {
  }

  lemma LastTurn(answers: Answers, blocked: set<Host>, start: nat, selected: seq<nat>, universe: set<Host>,
                 table: seq<Host>, v: Turn)
    requires TurnOk(answers, blocked, start, selected, universe, table, v) && v.queue == []
    ensures forall id :: id in v.done ==> id < |table|
    ensures forall i, j :: 0 <= i < j < |v.done| ==> v.done[i] != v.done[j]
    ensures LeastClosed(answers, blocked, HostsOf(table, selected), HostsOf(table, v.done))
    ensures v.candidates == AllCandidates(answers, table, v.done)
    ensures Represents(answers, table, v.done, v.candidates)
    ensures forall k :: start <= k < |table| ==> k in v.done
  {
    hide AllCandidates, Represents;
    CandidatesRepresent(answers, table, v.done);
    FrontierEmpty(answers, blocked, table, selected, v.done);
  }

  /** Finds the hosts, each processed once, and the candidate records: the least set of hosts that contains the
      selected ones and, with a host, every host it names that is not blocked. `universe` only bounds the names
      the answers may hold. */
  method DiscoverCandidates(t: HostTable, answers: Answers, selected: seq<nat>, ghost universe: set<Host>)
    returns (r: Result<Discovered, Error>)
    requires t.Valid()
    requires forall id :: id in selected ==> id < |t.rows|
    requires Closed(answers, Blocked(t.rows), universe) && HostsOf(Hosts(t.rows), selected) <= universe
    modifies t
    ensures t.Valid() && old(t.rows) <= t.rows
    ensures r.Err? <==> selected == []
    ensures r.Err? ==> t.rows == old(t.rows)
    ensures r.Ok? ==>
      var done, hosts := r.value.processed, Hosts(t.rows);
      && (forall id :: id in done ==> id < |hosts|)
      && (forall i, j :: 0 <= i < j < |done| ==> done[i] != done[j])
      && LeastClosed(answers, Blocked(old(t.rows)), HostsOf(hosts, selected), HostsOf(hosts, done))
      && r.value.candidates == AllCandidates(answers, hosts, done)
      && Represents(answers, hosts, done, r.value.candidates)
      && (forall k :: |old(t.rows)| <= k < |t.rows| ==>
            k in done && t.rows[k].attributes == Attributes("manual", "draft", true, "role=ns_host; auto discovered from apex NS"))
  {
    if selected == [] { return Err(NoTrustedHost); }
    ghost var start, blocked := |t.rows|, Blocked(t.rows);
    var v := Turn([], selected, {}, {}, []);
    FirstTurn(answers, blocked, selected, universe, Hosts(t.rows));
    hide TurnOk, Blocked, Distinct, Closed, AllCandidates, LeastClosed, Represents;
    while v.queue != []
      invariant t.Valid() && old(t.rows) <= t.rows && Blocked(t.rows) == blocked
      invariant forall i :: |old(t.rows)| <= i < |t.rows| ==> t.rows[i].attributes == NS_HOST
      invariant TurnOk(answers, blocked, start, selected, universe, Hosts(t.rows), v)
      decreases |universe - HostsOf(Hosts(t.rows), v.done)|, |v.queue|
    {
      if v.queue[0] in v.processed {
        SkipKeeps(answers, blocked, start, selected, universe, Hosts(t.rows), v);
        v := v.(queue := v.queue[1..]);
      } else {
        v := ProcessHost(t, answers, blocked, start, selected, universe, v);
      }
    }
    LastTurn(answers, blocked, start, selected, universe, Hosts(t.rows), v);
    r := Ok(Discovered(v.done, v.candidates));
  }

  // ---------- what the lookup costs ----------

  const APPROVED := Attributes("manual", "trusted", true, "")

  /** Two approved hosts of one domain. */
  function KnownHosts(): seq<HostRow> {
    [HostRow(Host(1, "example.com"), APPROVED), HostRow(Host(1, "ns1.example.com"), APPROVED)]
  }

  /** The first answers with the second as its name server. */
  function ApexAnswer(h: Host): seq<Record> {
    if h.fqdn == "example.com" then [Record("answer", "example.com", "NS", "ns1.example.com", None)] else []
  }

  lemma ApexNames()
    ensures forall h, n :: Names(ApexAnswer, h, n) <==> h.fqdn == "example.com" && n == "ns1.example.com"
  {
    TrimOfTrimmed("ns1.example.com", IsDot);
    var answer := [Record("answer", "example.com", "NS", "ns1.example.com", None)];
    assert answer[..0] == [] && NsValues(answer) == ["ns1.example.com"] && NsValues([]) == [];
  }

  /** A name server that is in the table with other attributes is passed over: the apex answers with its name
      server, which was approved before, and only the apex is processed. Following every name would process
      both. */
  lemma KnownNameServerIsSkipped()
    ensures var apex, ns := KnownHosts()[0].host, KnownHosts()[1].host;
      && LeastClosed(ApexAnswer, Blocked(KnownHosts()), {apex}, {apex})
      && LeastClosed(ApexAnswer, {}, {apex}, {apex, ns})
  {
    var apex, ns := KnownHosts()[0].host, KnownHosts()[1].host;
    assert KnownHosts()[1] in KnownHosts() && ns in Blocked(KnownHosts());
    ApexNames();
    hide Names, Blocked, ApexAnswer;
    OnlyApexNames(ApexAnswer, Blocked(KnownHosts()), apex, ns);
  }

  /** When one host names one other of its domain and nobody names anything else. */
  lemma OnlyApexNames(answers: Answers, blocked: set<Host>, apex: Host, ns: Host)
    requires apex.domainId == ns.domainId && apex.fqdn != ns.fqdn && ns in blocked
    requires forall h, n :: Names(answers, h, n) <==> h.fqdn == apex.fqdn && n == ns.fqdn
    ensures LeastClosed(answers, blocked, {apex}, {apex}) && LeastClosed(answers, {}, {apex}, {apex, ns})
  {
    hide Names;
    assert Names(answers, apex, ns.fqdn) && Host(apex.domainId, ns.fqdn) == ns;
  }
}
