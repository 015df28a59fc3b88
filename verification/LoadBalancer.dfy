/** The load balancer (`balancer.c`): its tables of virtual machines, kept up to date from the
    controller's messages, and the assignment of clients to machines. */
module LoadBalancer {

  const GROUPS := 3
  const NUMBER_VMS := 5
  const MAX_CLIENTS := 5
  const FREE := "0.0.0.0"

  type Address = string

  datatype Vm = Vm(ip: Address, port: int, clients: seq<Address>)

  datatype Endpoint = Endpoint(ip: Address, port: int)

  datatype Operation = Add | Delete | Rej | Unsupported

  datatype Message = Message(ip: Address, port: int, service: nat, op: Operation)

  const NEW_SLOT := Vm("", 0, [])

  /** create_empty_list */
  function EmptyList(): seq<Address> {
    seq(MAX_CLIENTS, i => FREE)
  }

  function Endpoints(s: seq<Vm>): (e: seq<Endpoint>)
    ensures |e| == |s|
  {
    seq(|s|, i requires 0 <= i < |s| => Endpoint(s[i].ip, s[i].port))
  }

  ghost function Bag(s: seq<Vm>): multiset<Endpoint> {
    multiset(Endpoints(s))
  }

  // ----- what a stream of messages means

  /** The machines of service g after one message. */
  ghost function Applied(m: multiset<Endpoint>, msg: Message, g: nat): multiset<Endpoint> {
    if msg.service != g then m else
      match msg.op
      case Add => m + multiset{Endpoint(msg.ip, msg.port)}
      case Unsupported => m
      case _ => m - multiset{Endpoint(msg.ip, msg.port)}
  }

  ghost function Fold(m: multiset<Endpoint>, stream: seq<Message>, g: nat): multiset<Endpoint> {
    if stream == [] then m else Applied(Fold(m, stream[..|stream| - 1], g), stream[|stream| - 1], g)
  }

  /** What a message is worth to a machine of service g: an addition counts for it, a removal or a
      rejuvenation against it. */
  function Worth(msg: Message, e: Endpoint, g: nat): int {
    if msg.service != g || Endpoint(msg.ip, msg.port) != e then 0
    else if msg.op == Add then 1
    else if msg.op == Delete || msg.op == Rej then -1
    else 0
  }

  /** What the messages from position j on are worth. */
  ghost function Surplus(stream: seq<Message>, e: Endpoint, g: nat, j: nat): int
    requires j <= |stream|
  {
    if j == |stream| then 0 else
      var n := |stream| - 1;
      Surplus(stream[..n], e, g, j) + Worth(stream[n], e, g)
  }

  lemma CopiesApplied(m: multiset<Endpoint>, msg: Message, e: Endpoint, g: nat)
    ensures Applied(m, msg, g)[e] == if m[e] + Worth(msg, e, g) < 0 then 0 else m[e] + Worth(msg, e, g)
  {
  }

  lemma SurplusMore(stream: seq<Message>, e: Endpoint, g: nat, j: nat)
    requires j < |stream|
    ensures Surplus(stream, e, g, j)
         == Surplus(stream[..|stream| - 1], e, g, j) + Worth(stream[|stream| - 1], e, g)
  {
  }

  /** A stream leaves a machine in the table as often as its additions exceed its removals, counted
      from wherever that excess is largest: removals of a machine that is not there do not matter
      to what comes later. */
  lemma {:induction false} CopiesLeft(m: multiset<Endpoint>, stream: seq<Message>, e: Endpoint, g: nat) returns (j: nat)
    ensures forall i: nat :: i <= |stream| ==> Fold(m, stream, g)[e] >= Surplus(stream, e, g, i)
    ensures Fold(m, stream, g)[e] >= m[e] + Surplus(stream, e, g, 0)
    ensures j <= |stream|
    ensures Fold(m, stream, g)[e] == Surplus(stream, e, g, j)
         || Fold(m, stream, g)[e] == m[e] + Surplus(stream, e, g, 0)
  {
    if stream == [] {
      return 0;
    }
    var n := |stream| - 1;
    j := CopiesLeft(m, stream[..n], e, g);
    CopiesApplied(Fold(m, stream[..n], g), stream[n], e, g);
    SurplusMore(stream, e, g, 0);
    forall i: nat | i <= n ensures Fold(m, stream, g)[e] >= Surplus(stream, e, g, i) {
      SurplusMore(stream, e, g, i);
    }
    if Fold(m, stream, g)[e] == Fold(m, stream[..n], g)[e] + Worth(stream[n], e, g) {
      SurplusMore(stream, e, g, j);
    } else {
      j := |stream|;
    }
  }

  lemma BagAppend(s: seq<Vm>, v: Vm)
    ensures Bag(s + [v]) == Bag(s) + multiset{Endpoint(v.ip, v.port)}
  {
    assert Endpoints(s + [v]) == Endpoints(s) + [Endpoint(v.ip, v.port)];
  }

  /** Putting the last machine in the place of another takes away that other one. */
  lemma BagSwap(s: seq<Vm>, i: nat)
    requires i < |s|
    ensures Bag(s[i := s[|s| - 1]][..|s| - 1]) == Bag(s) - multiset{Endpoint(s[i].ip, s[i].port)}
  {
    var n := |s| - 1;
    var e := Endpoints(s);
    var swapped := e[i := e[n]];
    assert Endpoints(s[i := s[n]][..n]) == swapped[..n];
    assert swapped == swapped[..n] + [e[n]];
    assert multiset(swapped) == multiset(swapped[..n]) + multiset{e[n]};
    assert e[i] in multiset(e);
    assert multiset(swapped) == multiset(e) - multiset{e[i]} + multiset{e[n]};
    Cancel(multiset(swapped[..n]), multiset(e) - multiset{e[i]}, e[n]);
  }

  lemma Cancel(a: multiset<Endpoint>, b: multiset<Endpoint>, x: Endpoint)
    requires a + multiset{x} == b + multiset{x}
    ensures a == b
  {
    assert a == (a + multiset{x}) - multiset{x};
    assert b == (b + multiset{x}) - multiset{x};
  }

  lemma BagAbsent(s: seq<Vm>, e: Endpoint)
    requires forall i :: 0 <= i < |s| ==> Endpoint(s[i].ip, s[i].port) != e
    ensures e !in Bag(s) && Bag(s) - multiset{e} == Bag(s)
  {
    assert forall i :: 0 <= i < |s| ==> Endpoints(s)[i] != e;
  }

  // ----- what a sequence of connections means

  ghost predicate Distinct(s: seq<Address>) {
    forall i, j :: 0 <= i < j < |s| ==> s[i] != s[j]
  }

  /** The different clients of a sequence of connections, in the order they first came. */
  ghost function Seen(connections: seq<Address>): (s: seq<Address>)
    ensures Distinct(s)
    ensures forall c :: c in connections <==> c in s
  {
    if connections == [] then [] else
      var n := |connections| - 1;
      var before, c := Seen(connections[..n]), connections[n];
      assert connections == connections[..n] + [c];
      if c in before then before else before + [c]
  }

  ghost function IndexOf(s: seq<Address>, c: Address): (i: nat)
    requires c in s
    ensures i < |s| && s[i] == c
  {
    if s[0] == c then 0 else 1 + IndexOf(s[1..], c)
  }

  /** The machine, of n, that a client is dealt to. */
  ghost function Home(clients: seq<Address>, c: Address, n: nat): (j: nat)
    requires c in clients && n > 0
    ensures j < n
  {
    IndexOf(clients, c) % n
  }

  lemma IndexUnique(s: seq<Address>, c: Address, i: nat)
    requires Distinct(s) && i < |s| && s[i] == c
    ensures IndexOf(s, c) == i
  {}

  /** A client keeps its place as more clients come. */
  lemma {:induction false} SeenGrows(connections: seq<Address>, k: nat)
    requires k <= |connections|
    ensures Seen(connections[..k]) <= Seen(connections)
    decreases |connections| - k
  {
    if k == |connections| {
      assert connections[..k] == connections;
    } else {
      SeenGrows(connections, k + 1);
      assert connections[..k + 1][..k] == connections[..k];
    }
  }

  /** The position among all clients of the one in slot q of machine j, with n machines. */
  function Position(j: nat, q: nat, n: nat): nat {
    q * n + j
  }

  /** Positions and slots correspond one to one. */
  lemma PositionSplits(j: nat, q: nat, n: nat, h: nat)
    requires j < n
    ensures Position(h % n, h / n, n) == h
    ensures Position(j, q, n) == h <==> j == h % n && q == h / n
    ensures j == h % n ==> (Position(j, q, n) < h <==> q < h / n)
  {
    var j', q' := h % n, h / n;
    assert h == q' * n + j';
    if q < q' {
      Larger(q, q', n);
    } else if q' < q {
      Larger(q', q, n);
    }
  }

  lemma Larger(a: nat, b: nat, n: nat)
    requires a < b
    ensures a * n + n <= b * n
  {
    var d: nat := b - a - 1;
    assert (a + 1 + d) * n == a * n + n + d * n;
  }

  /** How many of the first h clients go to machine j of n. */
  ghost function Share(h: nat, n: nat, j: nat): nat
    requires n > 0
  {
    if h == 0 then 0 else Share(h - 1, n, j) + if (h - 1) % n == j then 1 else 0
  }

  lemma {:induction false} ShareIs(h: nat, n: nat, j: nat)
    requires j < n
    ensures Share(h, n, j) == h / n + if j < h % n then 1 else 0
    decreases h
  {
    if h > 0 {
      ShareIs(h - 1, n, j);
      NextQuotient(h - 1, n);
    } else {
      assert 0 / n == 0;
    }
  }

  lemma NextQuotient(h: nat, n: nat)
    requires n > 0
    ensures (h + 1) / n == (if h % n == n - 1 then h / n + 1 else h / n)
    ensures (h + 1) % n == (if h % n == n - 1 then 0 else h % n + 1)
  {
    var q, r := h / n, h % n;
    assert h == q * n + r;
    if r == n - 1 {
      assert h + 1 == (q + 1) * n;
      Quotient(h + 1, n, q + 1, 0);
    } else {
      Quotient(h + 1, n, q, r + 1);
    }
  }

  lemma Quotient(x: nat, n: nat, q: nat, r: nat)
    requires r < n && x == q * n + r
    ensures x / n == q && x % n == r
  {
    PositionSplits(r, q, n, x);
  }

  /** The machines' numbers of clients never differ by more than one. */
  lemma SharesEven(h: nat, n: nat, j: nat, k: nat)
    requires j < n && k < n
    ensures Share(h, n, j) <= Share(h, n, k) + 1
  {
    ShareIs(h, n, j);
    ShareIs(h, n, k);
  }

  /** search_ip: one more than the first slot holding the address, or 0. */
  method SearchIp(vm: Vm, ip: Address) returns (k: nat)
    requires |vm.clients| == MAX_CLIENTS
    ensures k <= MAX_CLIENTS
    ensures k > 0 ==> vm.clients[k - 1] == ip && forall q :: 0 <= q < k - 1 ==> vm.clients[q] != ip
    ensures k == 0 <==> ip !in vm.clients
  {
    for index := 0 to MAX_CLIENTS
      invariant forall q :: 0 <= q < index ==> vm.clients[q] != ip
    {
      if vm.clients[index] == ip {
        return index + 1;
      }
    }
    k := 0;
  }

  /** Slot q of machine j of n holds the client whose place among all clients it stands for. */
  ghost predicate SlotHolds(vm: Vm, j: nat, q: nat, n: nat, clients: seq<Address>)
    requires |vm.clients| == MAX_CLIENTS && q < MAX_CLIENTS
  {
    vm.clients[q] == if Position(j, q, n) < |clients| then clients[Position(j, q, n)] else FREE
  }

  /** The clients are dealt to the machines in turn. */
  ghost predicate Dealt(vms: seq<Vm>, clients: seq<Address>) {
    && (forall j :: 0 <= j < |vms| ==> |vms[j].clients| == MAX_CLIENTS)
    && forall j, q {:trigger SlotHolds(vms[j], j, q, |vms|, clients)} :: 0 <= j < |vms| && 0 <= q < MAX_CLIENTS ==>
         SlotHolds(vms[j], j, q, |vms|, clients)
  }

  /** The index the next new client is given. */
  function Turn(index: nat, n: nat): nat {
    if index == n then 0 else index
  }

  lemma NextTurn(h: nat, n: nat)
    requires n > 0
    ensures h % n + 1 <= n && Turn(h % n + 1, n) == (h + 1) % n
  {
    NextQuotient(h, n);
  }

  /** A machine holding a client is the one it was dealt to. */
  lemma HeldBy(vms: seq<Vm>, clients: seq<Address>, j: nat, q: nat, ip: Address)
    requires Dealt(vms, clients) && Distinct(clients) && j < |vms| && q < MAX_CLIENTS && ip != FREE
    requires vms[j].clients[q] == ip
    ensures ip in clients && j == Home(clients, ip, |vms|)
  {
    assert SlotHolds(vms[j], j, q, |vms|, clients);
    var h := Position(j, q, |vms|);
    IndexUnique(clients, ip, h);
    PositionSplits(j, q, |vms|, h);
  }

  /** A client is held by some machine. */
  lemma Held(vms: seq<Vm>, clients: seq<Address>, ip: Address)
    requires Dealt(vms, clients) && |vms| > 0 && ip in clients && |clients| <= MAX_CLIENTS * |vms|
    ensures exists j :: 0 <= j < |vms| && ip in vms[j].clients
  {
    var h, n := IndexOf(clients, ip), |vms|;
    PositionSplits(h % n, h / n, n, h);
    RowBound(h, n);
    assert SlotHolds(vms[h % n], h % n, h / n, n, clients);
  }

  lemma RowBound(h: nat, n: nat)
    requires n > 0
    ensures h < MAX_CLIENTS * n <==> h / n < MAX_CLIENTS
  {
    RowBoundOf(h, n, h / n, h % n);
  }

  lemma RowBoundOf(h: nat, n: nat, q: nat, r: nat)
    requires h == q * n + r && r < n
    ensures h < MAX_CLIENTS * n <==> q < MAX_CLIENTS
  {
    if q < MAX_CLIENTS {
      assert (q + 1) * n <= MAX_CLIENTS * n;
    } else {
      assert q * n >= MAX_CLIENTS * n;
    }
  }

  /** The first free slot of the machine whose turn it is stands for the next place. */
  lemma NextFree(vms: seq<Vm>, clients: seq<Address>, j: nat)
    requires Dealt(vms, clients) && |vms| > 0 && j == |clients| % |vms| && FREE !in clients
    ensures |clients| < MAX_CLIENTS * |vms| ==> vms[j].clients[|clients| / |vms|] == FREE
    ensures forall q :: 0 <= q < MAX_CLIENTS && q < |clients| / |vms| ==> vms[j].clients[q] != FREE
    ensures |clients| < MAX_CLIENTS * |vms| <==> |clients| / |vms| < MAX_CLIENTS
  {
    var h, n := |clients|, |vms|;
    RowBound(h, n);
    if h / n < MAX_CLIENTS {
      PositionSplits(j, h / n, n, h);
      assert SlotHolds(vms[j], j, h / n, n, clients);
    }
    forall q | 0 <= q < MAX_CLIENTS && q < h / n ensures vms[j].clients[q] != FREE {
      PositionSplits(j, q, n, h);
      assert SlotHolds(vms[j], j, q, n, clients);
    }
  }

  /** Dealing the next client. */
  lemma DealtNext(vms: seq<Vm>, clients: seq<Address>, ip: Address, j: nat, q: nat)
    requires Dealt(vms, clients) && |vms| > 0 && j == |clients| % |vms| && q == |clients| / |vms| < MAX_CLIENTS
    ensures Dealt(vms[j := vms[j].(clients := vms[j].clients[q := ip])], clients + [ip])
  {
    var n := |vms|;
    var after := vms[j := vms[j].(clients := vms[j].clients[q := ip])];
    forall k, l | 0 <= k < n && 0 <= l < MAX_CLIENTS ensures SlotHolds(after[k], k, l, n, clients + [ip]) {
      PositionSplits(k, l, n, |clients|);
      assert SlotHolds(vms[k], k, l, n, clients);
    }
  }

  /** What the search for a free slot of the machine whose turn it is finds. */
  lemma FreeSlot(vms: seq<Vm>, clients: seq<Address>, j: nat, k: nat)
    requires Dealt(vms, clients) && |vms| > 0 && j == |clients| % |vms| && FREE !in clients && k <= MAX_CLIENTS
    requires |vms[j].clients| == MAX_CLIENTS && (k == 0 <==> FREE !in vms[j].clients)
    requires k > 0 ==> vms[j].clients[k - 1] == FREE && forall q :: 0 <= q < k - 1 ==> vms[j].clients[q] != FREE
    ensures k == 0 <==> |clients| >= MAX_CLIENTS * |vms|
    ensures k > 0 ==> k - 1 == |clients| / |vms|
  {
    NextFree(vms, clients, j);
  }

  datatype Routing = To(vm: nat) | NoMachine | NoFreeSlot

  class Balancer {
    var vmDataSet: seq<seq<Vm>>
    var currentVms: seq<nat>
    var allocatedVms: seq<nat>
    var actualIndex: nat

    ghost predicate Valid()
      reads this`vmDataSet, this`currentVms, this`allocatedVms
    {
      && |vmDataSet| == |currentVms| == |allocatedVms| == GROUPS
      && forall g :: 0 <= g < GROUPS ==> currentVms[g] <= allocatedVms[g] == |vmDataSet[g]| && allocatedVms[g] >= 1
    }

    /** The machines in use for service g. */
    ghost function Live(g: nat): seq<Vm>
      requires Valid() && g < GROUPS
      reads this`vmDataSet, this`currentVms, this`allocatedVms
    {
      vmDataSet[g][..currentVms[g]]
    }

    /** create_system_image */
    constructor ()
      ensures Valid() && actualIndex == 0
      ensures forall g :: 0 <= g < GROUPS ==> currentVms[g] == 0 && allocatedVms[g] == NUMBER_VMS
    {
      vmDataSet := seq(GROUPS, g => seq(NUMBER_VMS, i => NEW_SLOT));
      currentVms := seq(GROUPS, g => 0);
      allocatedVms := seq(GROUPS, g => NUMBER_VMS);
      actualIndex := 0;
    }

    /** check_vm_data_set_size: the table is doubled when every slot is in use. */
    method CheckSize(service: nat)
      requires Valid() && service < GROUPS
      modifies this`vmDataSet, this`allocatedVms
      ensures Valid() && currentVms[service] < allocatedVms[service]
      ensures allocatedVms == old(allocatedVms)[service :=
        if old(currentVms[service] == allocatedVms[service])
          then 2 * old(allocatedVms[service]) else old(allocatedVms[service])]
      ensures forall g :: 0 <= g < GROUPS ==> Live(g) == old(Live(g))
    {
      if currentVms[service] == allocatedVms[service] {
        var more := seq(allocatedVms[service], i => NEW_SLOT);
        vmDataSet := vmDataSet[service := vmDataSet[service] + more];
        allocatedVms := allocatedVms[service := 2 * allocatedVms[service]];
      }
    }

    /** The last machine takes the place of the one at `index`. */
    method Drop(service: nat, index: nat)
      requires Valid() && service < GROUPS && index < currentVms[service]
      modifies this`vmDataSet, this`currentVms
      ensures Valid()
      ensures Bag(Live(service))
        == old(Bag(Live(service))) - multiset{old(Endpoint(Live(service)[index].ip, Live(service)[index].port))}
      ensures forall v :: v in Live(service) ==> v in old(Live(service))
      ensures forall g :: 0 <= g < GROUPS && g != service ==> Live(g) == old(Live(g))
    {
      ghost var live := Live(service);
      var last := currentVms[service] - 1;
      BagSwap(live, index);
      currentVms := currentVms[service := last];
      vmDataSet := vmDataSet[service := vmDataSet[service][index := vmDataSet[service][last]]];
      assert Live(service) == live[index := live[last]][..last];
    }

    /** The machines in use are old ones or have no clients. */
    twostate predicate NewOnesFree()
      requires old(Valid()) && Valid()
      reads this
    {
      forall v :: v in Live(0) ==> v in old(Live(0)) || v.clients == EmptyList()
    }

    /** delete_vm: the last machine takes the place of the first with this address and port. */
    method DeleteVm(ip: Address, service: nat, port: int)
      requires Valid() && service < GROUPS
      modifies this`vmDataSet, this`currentVms
      ensures Valid()
      ensures Bag(Live(service)) == old(Bag(Live(service))) - multiset{Endpoint(ip, port)}
      ensures forall v :: v in Live(service) ==> v in old(Live(service))
      ensures NewOnesFree()
      ensures forall g :: 0 <= g < GROUPS && g != service ==> Live(g) == old(Live(g))
    {
      ghost var live := Live(service);
      for index := 0 to currentVms[service]
        invariant Valid() && vmDataSet == old(vmDataSet) && currentVms == old(currentVms)
        invariant forall i :: 0 <= i < index ==> Endpoint(live[i].ip, live[i].port) != Endpoint(ip, port)
      {
        var vm := vmDataSet[service][index];
        if vm.ip == ip && vm.port == port {
          Drop(service, index);
          return;
        }
      }
      BagAbsent(live, Endpoint(ip, port));
    }

    /** create_empty_list, on the slot after those in use. */
    method ClearSlot(service: nat)
      requires Valid() && service < GROUPS && currentVms[service] < allocatedVms[service]
      modifies this`vmDataSet
      ensures Valid() && vmDataSet[service][currentVms[service]].clients == EmptyList()
      ensures forall g :: 0 <= g < GROUPS ==> Live(g) == old(Live(g))
    {
      var at := currentVms[service];
      var vm := vmDataSet[service][at].(clients := EmptyList());
      vmDataSet := vmDataSet[service := vmDataSet[service][at := vm]];
    }

    /** The machine is entered in the slot after those in use. */
    method AddVm(ip: Address, service: nat, port: int)
      requires Valid() && service < GROUPS && currentVms[service] < allocatedVms[service]
      requires vmDataSet[service][currentVms[service]].clients == EmptyList()
      modifies this`vmDataSet, this`currentVms
      ensures Valid() && Live(service) == old(Live(service)) + [Vm(ip, port, EmptyList())]
      ensures Bag(Live(service)) == old(Bag(Live(service))) + multiset{Endpoint(ip, port)}
      ensures NewOnesFree()
      ensures forall g :: 0 <= g < GROUPS && g != service ==> Live(g) == old(Live(g))
    {
      var at := currentVms[service];
      var vm := vmDataSet[service][at].(ip := ip, port := port);
      vmDataSet := vmDataSet[service := vmDataSet[service][at := vm]];
      currentVms := currentVms[service := at + 1];
      BagAppend(old(Live(service)), Vm(ip, port, EmptyList()));
    }

    /** The message is carried out, the slot after those in use being clear. */
    method Execute(msg: Message)
      requires Valid() && msg.service < GROUPS && currentVms[msg.service] < allocatedVms[msg.service]
      requires vmDataSet[msg.service][currentVms[msg.service]].clients == EmptyList()
      modifies this`vmDataSet, this`currentVms
      ensures Valid() && NewOnesFree()
      ensures Bag(Live(msg.service)) == Applied(old(Bag(Live(msg.service))), msg, msg.service)
      ensures forall g :: 0 <= g < GROUPS && g != msg.service ==> Live(g) == old(Live(g))
    {
      match msg.op {
        case Add =>
          AddVm(msg.ip, msg.service, msg.port);
        case Delete =>
          DeleteVm(msg.ip, msg.service, msg.port);
        case Rej =>
          DeleteVm(msg.ip, msg.service, msg.port);
        case Unsupported =>
      }
    }

    /** One turn of controller_thread: the slot after those in use is cleared whatever the
        message is, and then the message is carried out. */
    method Handle(msg: Message)
      requires Valid() && msg.service < GROUPS
      modifies this`vmDataSet, this`currentVms, this`allocatedVms
      ensures Valid() && NewOnesFree()
      ensures forall g :: 0 <= g < GROUPS ==> Bag(Live(g)) == Applied(old(Bag(Live(g))), msg, g)
    {
      CheckSize(msg.service);
      ClearSlot(msg.service);
      Execute(msg);
    }

    /** controller_thread, for any stream of messages: every table holds, as a bag, what the
        stream folds to. */
    method HandleAll(stream: seq<Message>)
      requires Valid() && forall i :: 0 <= i < |stream| ==> stream[i].service < GROUPS
      modifies this`vmDataSet, this`currentVms, this`allocatedVms
      ensures Valid()
      ensures forall g :: 0 <= g < GROUPS ==> Bag(Live(g)) == Fold(old(Bag(Live(g))), stream, g)
      ensures old(Idle()) ==> Idle()
    {
      for i := 0 to |stream|
        invariant Valid() && (old(Idle()) ==> Idle())
        invariant forall g :: 0 <= g < GROUPS ==> Bag(Live(g)) == Fold(old(Bag(Live(g))), stream[..i], g)
      {
        Handle(stream[i]);
        assert stream[..i + 1][..i] == stream[..i];
      }
      assert stream[..|stream|] == stream;
    }

    // ----- routing, among the machines of service 0

    /** The clients seen so far have been dealt to the machines in turn, and the next index is
        that of the machine whose turn it is, or one past the last machine. */
    ghost predicate Routed(clients: seq<Address>)
      requires Valid()
      reads this
    {
      && Dealt(Live(0), clients) && Distinct(clients) && FREE !in clients
      && |clients| <= MAX_CLIENTS * currentVms[0] && actualIndex <= currentVms[0]
      && (currentVms[0] > 0 ==> Turn(actualIndex, currentVms[0]) == |clients| % currentVms[0])
    }

    /** The address is written into a slot of a machine of service 0. */
    method Enter(at: nat, q: nat, ip: Address)
      requires Valid() && at < currentVms[0] && |vmDataSet[0][at].clients| == MAX_CLIENTS && q < MAX_CLIENTS
      modifies this`vmDataSet
      ensures Valid()
      ensures
        var vm := old(Live(0)[at]);
        Live(0) == old(Live(0))[at := vm.(clients := vm.clients[q := ip])]
      ensures forall g :: 0 < g < GROUPS ==> Live(g) == old(Live(g))
    {
      var vm := vmDataSet[0][at];
      vmDataSet := vmDataSet[0 := vmDataSet[0][at := vm.(clients := vm.clients[q := ip])]];
    }

    /** No machine of service 0 has clients. */
    ghost predicate Idle()
      requires Valid()
      reads this`vmDataSet, this`currentVms, this`allocatedVms
    {
      forall v :: v in Live(0) ==> v.clients == EmptyList()
    }

    /** Routing can start once the machines have been added. */
    lemma IdleRouted()
      requires Valid() && Idle() && actualIndex == 0
      ensures Routed([])
    {
      ghost var live := Live(0);
      forall j | 0 <= j < |live| ensures live[j].clients == EmptyList() {
        assert live[j] in live;
      }
      assert forall j, q :: 0 <= j < |live| && 0 <= q < MAX_CLIENTS ==> SlotHolds(live[j], j, q, |live|, []);
      if currentVms[0] > 0 {
        assert 0 % currentVms[0] == 0;
      }
    }

    /** The loop of check_already_connected: the machine that has the client, if there is one. */
    method FindClient(ip: Address, ghost clients: seq<Address>) returns (index: nat)
      requires Valid() && Dealt(Live(0), clients) && Distinct(clients) && ip != FREE
      requires currentVms[0] > 0 && |clients| <= MAX_CLIENTS * currentVms[0]
      ensures index <= currentVms[0]
      ensures index < currentVms[0] ==> ip in clients && index == Home(clients, ip, currentVms[0])
      ensures index == currentVms[0] ==> ip !in clients
    {
      ghost var live := Live(0);
      for i := 0 to currentVms[0]
        invariant forall j :: 0 <= j < i ==> ip !in live[j].clients
      {
        var k := SearchIp(vmDataSet[0][i], ip);
        if k > 0 {
          HeldBy(live, clients, i, k - 1, ip);
          return i;
        }
      }
      if ip in clients {
        Held(live, clients, ip);
        assert false;
      }
      index := currentVms[0];
    }

    /** The end of check_already_connected: a new client is given to the machine whose turn it
        is, if that has a free slot. */
    method Assign(ip: Address, ghost clients: seq<Address>) returns (r: Routing)
      requires Valid() && Routed(clients) && ip != FREE && ip !in clients && actualIndex < currentVms[0]
      modifies this`vmDataSet, this`actualIndex
      ensures Valid() && forall g :: 0 < g < GROUPS ==> Live(g) == old(Live(g))
      ensures r == if |clients| < MAX_CLIENTS * currentVms[0] then To(|clients| % currentVms[0]) else NoFreeSlot
      ensures Routed(if r.To? then clients + [ip] else clients)
    {
      ghost var n, live := currentVms[0], Live(0);
      var at := actualIndex;
      var k := SearchIp(vmDataSet[0][at], FREE);
      FreeSlot(live, clients, at, k);
      if k == 0 {
        return NoFreeSlot;
      }
      DealtNext(live, clients, ip, at, k - 1);
      Enter(at, k - 1, ip);
      actualIndex := at + 1;
      NextTurn(|clients|, n);
      return To(at);
    }

    /** get_current_socket and check_already_connected: a known client goes to its machine, a new
        one to the machine whose turn it is. The source does not survive the last two outcomes. */
    method Route(ip: Address, ghost clients: seq<Address>) returns (r: Routing)
      requires Valid() && Routed(clients) && ip != FREE
      modifies this`vmDataSet, this`actualIndex
      ensures Valid() && forall g :: 0 < g < GROUPS ==> Live(g) == old(Live(g))
      ensures r == if currentVms[0] == 0 then NoMachine
                   else if ip in clients then To(Home(clients, ip, currentVms[0]))
                   else if |clients| < MAX_CLIENTS * currentVms[0] then To(|clients| % currentVms[0])
                   else NoFreeSlot
      ensures Routed(if r.To? && ip !in clients then clients + [ip] else clients)
    {
      if actualIndex == currentVms[0] {
        actualIndex := 0;
      }
      if currentVms[0] == 0 {
        return NoMachine;
      }
      var known := FindClient(ip, clients);
      if known < currentVms[0] {
        return To(known);
      }
      r := Assign(ip, clients);
    }

    /** The next of a sequence of connections. */
    method RouteNext(connections: seq<Address>, i: nat) returns (vm: nat)
      requires Valid() && i < |connections| && currentVms[0] > 0 && connections[i] != FREE
      requires Routed(Seen(connections[..i])) && |Seen(connections)| <= MAX_CLIENTS * currentVms[0]
      modifies this`vmDataSet, this`actualIndex
      ensures Valid() && Routed(Seen(connections[..i + 1]))
      ensures connections[i] in Seen(connections) && vm == Home(Seen(connections), connections[i], currentVms[0])
    {
      ghost var before := Seen(connections[..i]);
      SeenNext(connections, i, currentVms[0]);
      var r := Route(connections[i], before);
      vm := r.vm;
    }

    /** Any sequence of connections from at most five clients for each machine: each client is
        kept on one machine, the one its place among the clients comes to. */
    method RouteAll(connections: seq<Address>) returns (routes: seq<nat>)
      requires Valid() && Routed([]) && FREE !in connections && currentVms[0] > 0
      requires |Seen(connections)| <= MAX_CLIENTS * currentVms[0]
      modifies this`vmDataSet, this`actualIndex
      ensures Valid() && Routed(Seen(connections)) && |routes| == |connections|
      ensures forall i :: 0 <= i < |routes| ==>
        connections[i] in Seen(connections) && routes[i] == Home(Seen(connections), connections[i], currentVms[0])
    {
      routes := [];
      for i := 0 to |connections|
        invariant Valid() && Routed(Seen(connections[..i])) && |routes| == i
        invariant forall k :: 0 <= k < i ==>
          connections[k] in Seen(connections) && routes[k] == Home(Seen(connections), connections[k], currentVms[0])
      {
        var vm := RouteNext(connections, i);
        routes := routes + [vm];
      }
      assert connections[..|connections|] == connections;
    }
  }

  /** The next connection's client is already known, or comes after those seen; and its place
      among those seen by then is its place for good. */
  lemma SeenNext(connections: seq<Address>, i: nat, n: nat)
    requires i < |connections| && n > 0
    ensures
      var before, after, c := Seen(connections[..i]), Seen(connections[..i + 1]), connections[i];
      && after == (if c in before then before else before + [c])
      && c in Seen(connections) && |after| <= |Seen(connections)|
      && Home(Seen(connections), c, n) == if c in before then Home(before, c, n) else |before| % n
  {
    var before, after, c, all := Seen(connections[..i]), Seen(connections[..i + 1]), connections[i], Seen(connections);
    assert connections[..i + 1][..i] == connections[..i];
    SeenGrows(connections, i + 1);
    var k := if c in before then IndexOf(before, c) else |before|;
    assert after[k] == c && all[k] == c;
    IndexUnique(all, c, k);
  }

  /** The clients a machine holds are as many as its share of the deal. */
  lemma {:induction false} HeldShare(vms: seq<Vm>, clients: seq<Address>, j: nat, q: nat)
    requires Dealt(vms, clients) && FREE !in clients && j < |vms| && q < MAX_CLIENTS
    ensures vms[j].clients[q] != FREE <==> q < Share(|clients|, |vms|, j)
  {
    ShareIs(|clients|, |vms|, j);
    PositionBelow(|clients|, |vms|, j, q);
    assert SlotHolds(vms[j], j, q, |vms|, clients);
  }

  lemma PositionBelow(h: nat, n: nat, j: nat, q: nat)
    requires j < n
    ensures Position(j, q, n) < h <==> q < h / n + if j < h % n then 1 else 0
  {
    assert h == (h / n) * n + h % n;
    if q < h / n {
      Larger(q, h / n, n);
    } else if q > h / n {
      Larger(h / n, q, n);
    }
  }
}
