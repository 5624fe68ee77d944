/**
  * The device feature-struct table and the `pNext` chain built from it
  * (`PnextChainPushFront` and the struct table of `DeviceInitHelp` in
  * VkExtensionsFeaturesHelp.hpp).
  *
  * The payload structs form an arena: struct `i` of the table owns node
  * `i`, whose `pNext` field is an index into the arena, -1 being null.
  * The head `m_Features2` is kept apart; its `pNext` is called the head link.
  */
module FeatureChain {
  import opened VkTypes

  datatype FeatureStruct = FeatureStruct(name: string, sType: StructureType, enabled: bool)

  const NULL: int := -1

  function StructNames(structs: seq<FeatureStruct>): seq<string> {
    seq(|structs|, i requires 0 <= i < |structs| => structs[i].name)
  }

  function StructTypes(structs: seq<FeatureStruct>): seq<StructureType> {
    seq(|structs|, i requires 0 <= i < |structs| => structs[i].sType)
  }

  /** The table as the constructor registers it: every struct starts enabled. */
  function Declared(catalogue: seq<(string, StructureType)>): (structs: seq<FeatureStruct>)
    ensures |structs| == |catalogue|
    ensures forall i :: 0 <= i < |structs| ==> structs[i].name == catalogue[i].0 && structs[i].sType == catalogue[i].1
    ensures forall i :: 0 <= i < |structs| ==> structs[i].enabled
  {
    seq(|catalogue|, i requires 0 <= i < |catalogue| => FeatureStruct(catalogue[i].0, catalogue[i].1, true))
  }

  /** The table after struct `k` (when it exists) had its flag set to `enabled`. */
  function WithStructFlag(structs: seq<FeatureStruct>, k: int, enabled: bool): (r: seq<FeatureStruct>)
    ensures |r| == |structs| && StructNames(r) == StructNames(structs) && StructTypes(r) == StructTypes(structs)
    ensures forall i :: 0 <= i < |structs| && i != k ==> r[i] == structs[i]
    ensures 0 <= k < |structs| ==> r[k].enabled == enabled
  {
    if 0 <= k < |structs| then
      var r := structs[k := structs[k].(enabled := enabled)];
      assert StructNames(r) == StructNames(structs);
      assert StructTypes(r) == StructTypes(structs);
      r
    else structs
  }

  /** The table after every flag was set to `enabled`. */
  function WithAllStructs(structs: seq<FeatureStruct>, enabled: bool): (r: seq<FeatureStruct>)
    ensures |r| == |structs| && StructNames(r) == StructNames(structs) && StructTypes(r) == StructTypes(structs)
    ensures forall i :: 0 <= i < |r| ==> r[i].enabled == enabled
  {
    seq(|structs|, i requires 0 <= i < |structs| => structs[i].(enabled := enabled))
  }

  /**
    * The indices of the enabled structs, last declared first: the order a
    * repeated push-front after the head leaves them in.
    */
  function EnabledReversed(structs: seq<FeatureStruct>): (order: seq<int>)
    ensures |order| <= |structs|
  {
    if |structs| == 0 then []
    else
      var n := |structs| - 1;
      var rest := EnabledReversed(structs[..n]);
      if structs[n].enabled then [n] + rest else rest
  }

  /**
    * The order holds each enabled struct exactly once (it is strictly
    * decreasing) and nothing else: the enabled structs, last declared first.
    */
  lemma {:induction false} EnabledReversedIsReverseOfEnabled(structs: seq<FeatureStruct>)
    ensures forall k :: 0 <= k < |EnabledReversed(structs)| ==>
      0 <= EnabledReversed(structs)[k] < |structs| && structs[EnabledReversed(structs)[k]].enabled
    ensures forall i :: 0 <= i < |structs| && structs[i].enabled ==> i in EnabledReversed(structs)
    ensures forall a, b :: 0 <= a < b < |EnabledReversed(structs)| ==> EnabledReversed(structs)[a] > EnabledReversed(structs)[b]
    decreases |structs|
  {
    if |structs| > 0 {
      var n := |structs| - 1;
      EnabledReversedIsReverseOfEnabled(structs[..n]);
      forall i | 0 <= i < n ensures structs[..n][i] == structs[i] {}
    }
  }

  /** Right after construction every struct is enabled, so the chain holds all of them, last declared first. */
  lemma {:induction false} AllDeclaredChained(catalogue: seq<(string, StructureType)>)
    ensures EnabledReversed(Declared(catalogue)) == seq(|catalogue|, k requires 0 <= k < |catalogue| => |catalogue| - 1 - k)
    decreases |catalogue|
  {
    if |catalogue| > 0 {
      var n := |catalogue| - 1;
      assert Declared(catalogue)[..n] == Declared(catalogue[..n]);
      AllDeclaredChained(catalogue[..n]);
    }
  }

  /** Declaring one more struct puts it in front of the order when it is enabled. */
  lemma EnabledReversedSnoc(structs: seq<FeatureStruct>, s: FeatureStruct)
    ensures EnabledReversed(structs + [s]) == if s.enabled then [|structs|] + EnabledReversed(structs) else EnabledReversed(structs)
  {
    assert (structs + [s])[..|structs|] == structs;
  }

  /**
    * Walking from `head` along `links` visits exactly `order` and then
    * reaches null.
    */
  ghost predicate ChainFrom(head: int, links: seq<int>, order: seq<int>) {
    (forall k :: 0 <= k < |order| ==> 0 <= order[k] < |links|) &&
    if |order| == 0 then head == NULL
    else
      head == order[0] &&
      links[order[|order| - 1]] == NULL &&
      forall k :: 0 <= k < |order| - 1 ==> links[order[k]] == order[k + 1]
  }

  /**
    * The nodes a consumer visits following links from `cur` until null,
    * with at most `fuel` steps; None when the fuel runs out or a link
    * leaves the arena.
    */
  function Walk(links: seq<int>, cur: int, fuel: nat): Option<seq<int>>
    decreases fuel
  {
    if cur == NULL then Some([])
    else if fuel == 0 || !(0 <= cur < |links|) then None
    else
      match Walk(links, links[cur], fuel - 1)
      case None => None
      case Some(rest) => Some([cur] + rest)
  }

  /** A chain in the sense of ChainFrom is what the walk from its head visits. */
  lemma {:induction false} ChainWalk(head: int, links: seq<int>, order: seq<int>, fuel: nat)
    requires ChainFrom(head, links, order)
    requires |order| <= fuel
    ensures Walk(links, head, fuel) == Some(order)
    decreases |order|
  {
    if |order| > 0 {
      var rest := order[1..];
      assert ChainFrom(links[head], links, rest) by {
        if |rest| > 0 {
          assert links[order[0]] == order[1];
          forall k | 0 <= k < |rest| - 1 ensures links[rest[k]] == rest[k + 1] {
            assert links[order[k + 1]] == order[k + 2];
          }
        }
      }
      ChainWalk(links[head], links, rest, fuel - 1);
      assert order == [head] + rest;
    }
  }

  /** A chain is fixed by its order: the head link and every link along it are determined. */
  lemma ChainDetermined(h1: int, l1: seq<int>, h2: int, l2: seq<int>, order: seq<int>)
    requires ChainFrom(h1, l1, order) && ChainFrom(h2, l2, order)
    ensures h1 == h2
    ensures forall k :: 0 <= k < |order| ==> l1[order[k]] == l2[order[k]]
  {
    forall k | 0 <= k < |order|
      ensures l1[order[k]] == l2[order[k]]
    {
      if k < |order| - 1 {
        assert l1[order[k]] == order[k + 1] == l2[order[k]];
      }
    }
  }

  /**
    * `PnextChainPushFront(head, node)` on a chain that does not contain
    * `node` gives a chain with `node` in front.
    */
  lemma PushFrontKeepsChain(head: int, links: seq<int>, order: seq<int>, node: int)
    requires ChainFrom(head, links, order)
    requires 0 <= node < |links| && node !in order
    ensures ChainFrom(node, links[node := head], [node] + order)
  {
    var links', order' := links[node := head], [node] + order;
    forall k | 0 <= k < |order'| - 1 ensures links'[order'[k]] == order'[k + 1] {
      if k > 0 {
        assert order'[k] == order[k - 1] && order[k - 1] != node;
      }
    }
    if |order| > 0 {
      assert order[|order| - 1] in order;
    }
  }

  /** One iteration of the linking loop: pushing enabled struct `i` extends the chain to the first `i + 1` structs. */
  lemma LinkStep(head: int, links: seq<int>, structs: seq<FeatureStruct>, i: int)
    requires 0 <= i < |structs| == |links| && structs[i].enabled
    requires ChainFrom(head, links, EnabledReversed(structs[..i]))
    ensures ChainFrom(i, links[i := head], EnabledReversed(structs[..i + 1]))
  {
    assert structs[..i + 1] == structs[..i] + [structs[i]];
    EnabledReversedSnoc(structs[..i], structs[i]);
    EnabledReversedIsReverseOfEnabled(structs[..i]);
    PushFrontKeepsChain(head, links, EnabledReversed(structs[..i]), i);
  }

  /** A disabled struct leaves the order of the first `i + 1` structs as it was. */
  lemma SkipStep(structs: seq<FeatureStruct>, i: int)
    requires 0 <= i < |structs| && !structs[i].enabled
    ensures EnabledReversed(structs[..i + 1]) == EnabledReversed(structs[..i])
  {
    assert structs[..i + 1] == structs[..i] + [structs[i]];
    EnabledReversedSnoc(structs[..i], structs[i]);
  }

  /**
    * What the driver writes while filling the chained structs: struct `i`
    * receives the bits reported for its sType when the walk visited it and
    * the driver knows that sType; every other payload keeps its contents.
    */
  function Filled(payloads: seq<set<string>>, structs: seq<FeatureStruct>, visited: seq<int>,
                  reported: map<StructureType, set<string>>): (r: seq<set<string>>)
    requires |payloads| == |structs|
    ensures |r| == |payloads|
  {
    seq(|payloads|, i requires 0 <= i < |payloads| =>
      if i in visited && structs[i].sType in reported then reported[structs[i].sType] else payloads[i])
  }

  /** The chain a query walks fills exactly the enabled structs. */
  lemma FilledAreEnabled(payloads: seq<set<string>>, structs: seq<FeatureStruct>,
                         reported: map<StructureType, set<string>>, i: int)
    requires |payloads| == |structs| && 0 <= i < |structs|
    ensures Filled(payloads, structs, EnabledReversed(structs), reported)[i] ==
            if structs[i].enabled && structs[i].sType in reported then reported[structs[i].sType] else payloads[i]
  {
    var order := EnabledReversed(structs);
    EnabledReversedIsReverseOfEnabled(structs);
    if i in order {
      var k :| 0 <= k < |order| && order[k] == i;
    }
  }
}
