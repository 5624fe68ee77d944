/**
  * The ordered registry of `{name, supported, enabled}` items
  * (`EnabledItemVector` in VkExtensionsFeaturesHelp.hpp) and the
  * functions that specify it.
  */
module Registry {
  import opened VkTypes

  datatype Item = Item(name: string, supported: bool, enabled: bool)

  function Names(items: seq<Item>): seq<string> {
    seq(|items|, i requires 0 <= i < |items| => items[i].name)
  }

  /**
    * Index of the first key equal to `key`, or -1 when there is none
    * (the source's `SIZE_MAX`).
    */
  function FirstIndex<T(==)>(keys: seq<T>, key: T): (r: int)
    ensures -1 <= r < |keys|
    ensures r == -1 <==> key !in keys
    ensures 0 <= r ==> keys[r] == key && key !in keys[..r]
  {
    if |keys| == 0 then -1
    else if keys[0] == key then 0
    else
      var k := FirstIndex(keys[1..], key);
      assert keys == [keys[0]] + keys[1..];
      if k == -1 then -1
      else
        assert keys[..k + 1] == [keys[0]] + keys[1..][..k];
        k + 1
  }

  /** The central invariant: nothing is enabled unless the runtime reported it. */
  ghost predicate EnabledImpliesSupported(items: seq<Item>) {
    forall i :: 0 <= i < |items| ==> items[i].enabled ==> items[i].supported
  }

  /** The registry as the constructor builds it from the catalogue. */
  function Registered(catalogue: seq<string>): (items: seq<Item>)
    ensures Names(items) == catalogue
  {
    seq(|catalogue|, i requires 0 <= i < |catalogue| => Item(catalogue[i], false, false))
  }

  /** What `IsSupported` reports: the flag of the first item with that name, false when there is none. */
  function SupportedOf(items: seq<Item>, name: string): bool {
    var k := FirstIndex(Names(items), name);
    k >= 0 && items[k].supported
  }

  /** What `IsEnabled` reports. */
  function EnabledOf(items: seq<Item>, name: string): bool {
    var k := FirstIndex(Names(items), name);
    k >= 0 && items[k].enabled
  }

  /** The items and the result of `Enable(name, want)`. */
  datatype EnableOutcome = EnableOutcome(items: seq<Item>, enabled: bool)

  function Enabling(items: seq<Item>, name: string, want: bool): (r: EnableOutcome)
    ensures r.enabled <==> want && SupportedOf(items, name)
    ensures Names(r.items) == Names(items)
    ensures forall i :: 0 <= i < |items| ==> r.items[i].supported == items[i].supported
    ensures forall i :: 0 <= i < |items| && i != FirstIndex(Names(items), name) ==> r.items[i] == items[i]
    ensures name in Names(items) ==> EnabledOf(r.items, name) == r.enabled
    ensures name !in Names(items) ==> r.items == items
    ensures EnabledImpliesSupported(items) ==> EnabledImpliesSupported(r.items)
  {
    var k := FirstIndex(Names(items), name);
    if k == -1 then EnableOutcome(items, false)
    else
      var on := want && items[k].supported;
      var items' := items[k := items[k].(enabled := on)];
      assert Names(items') == Names(items);
      EnableOutcome(items', on)
  }

  /** The items after `EnableAll(enabled)`. */
  function WithAllEnabled(items: seq<Item>, enabled: bool): (r: seq<Item>)
    ensures Names(r) == Names(items)
    ensures forall i :: 0 <= i < |items| ==> r[i].supported == items[i].supported
    ensures forall i :: 0 <= i < |items| ==> (r[i].enabled <==> enabled && items[i].supported)
    ensures EnabledImpliesSupported(r)
  {
    seq(|items|, i requires 0 <= i < |items| => items[i].(enabled := enabled && items[i].supported))
  }

  /** The items after the runtime reported `reported`: every item whose name was reported is supported and enabled. */
  function Loaded(items: seq<Item>, reported: seq<string>): (r: seq<Item>)
    ensures Names(r) == Names(items)
    ensures forall i :: 0 <= i < |items| && items[i].name in reported ==> r[i].supported && r[i].enabled
    ensures forall i :: 0 <= i < |items| && items[i].name !in reported ==> r[i] == items[i]
    ensures EnabledImpliesSupported(items) ==> EnabledImpliesSupported(r)
  {
    seq(|items|, i requires 0 <= i < |items| =>
      if items[i].name in reported then items[i].(supported := true, enabled := true) else items[i])
  }

  /** The names of the enabled items, in declaration order. */
  function EnabledNames(items: seq<Item>): seq<string> {
    if |items| == 0 then []
    else
      var last := items[|items| - 1];
      EnabledNames(items[..|items| - 1]) + (if last.enabled then [last.name] else [])
  }

  /** The names of the supported items, in declaration order. */
  function SupportedNames(items: seq<Item>): seq<string> {
    if |items| == 0 then []
    else
      var last := items[|items| - 1];
      SupportedNames(items[..|items| - 1]) + (if last.supported then [last.name] else [])
  }

  /** The prepared list of a concatenation is the concatenation of the prepared lists: order is kept. */
  lemma {:induction false} EnabledNamesAppend(a: seq<Item>, b: seq<Item>)
    ensures EnabledNames(a + b) == EnabledNames(a) + EnabledNames(b)
    decreases |b|
  {
    if |b| == 0 {
      assert a + b == a;
    } else {
      var b' := b[..|b| - 1];
      assert (a + b)[..|a + b| - 1] == a + b';
      EnabledNamesAppend(a, b');
    }
  }

  /** A name is in the prepared list exactly when some item with that name is enabled. */
  lemma {:induction false} EnabledNamesMembership(items: seq<Item>, name: string)
    ensures name in EnabledNames(items) <==> exists i :: 0 <= i < |items| && items[i].enabled && items[i].name == name
    decreases |items|
  {
    if |items| > 0 {
      var init := items[..|items| - 1];
      EnabledNamesMembership(init, name);
      if exists i :: 0 <= i < |init| && init[i].enabled && init[i].name == name {
        var i :| 0 <= i < |init| && init[i].enabled && init[i].name == name;
        assert items[i] == init[i];
      }
    }
  }

  /** Every prepared name belongs to a supported item when the invariant holds. */
  lemma EnabledNamesAreSupported(items: seq<Item>, name: string)
    requires EnabledImpliesSupported(items)
    requires name in EnabledNames(items)
    ensures exists i :: 0 <= i < |items| && items[i].supported && items[i].name == name
  {
    EnabledNamesMembership(items, name);
  }

  /** `EnableAll(true)` followed by `PrepareEnabled` lists exactly the supported names, in order. */
  lemma {:induction false} AllEnabledListsSupported(items: seq<Item>)
    ensures EnabledNames(WithAllEnabled(items, true)) == SupportedNames(items)
    decreases |items|
  {
    if |items| > 0 {
      var init := items[..|items| - 1];
      assert WithAllEnabled(items, true)[..|items| - 1] == WithAllEnabled(init, true);
      AllEnabledListsSupported(init);
    }
  }

  /** `EnableAll(false)` followed by `PrepareEnabled` lists nothing. */
  lemma {:induction false} AllDisabledListsNothing(items: seq<Item>)
    ensures EnabledNames(WithAllEnabled(items, false)) == []
    decreases |items|
  {
    if |items| > 0 {
      var init := items[..|items| - 1];
      assert WithAllEnabled(items, false)[..|items| - 1] == WithAllEnabled(init, false);
      AllDisabledListsNothing(init);
    }
  }

  /** A freshly built registry prepares an empty list and supports nothing. */
  lemma {:induction false} RegisteredIsInert(catalogue: seq<string>, name: string)
    ensures EnabledNames(Registered(catalogue)) == []
    ensures !SupportedOf(Registered(catalogue), name) && !EnabledOf(Registered(catalogue), name)
    ensures EnabledImpliesSupported(Registered(catalogue))
    decreases |catalogue|
  {
    if |catalogue| > 0 {
      var init := catalogue[..|catalogue| - 1];
      assert Registered(catalogue)[..|catalogue| - 1] == Registered(init);
      RegisteredIsInert(init, name);
    }
  }

  /** A failed `Enable(name, true)` on a consistent registry changes nothing at all. */
  lemma FailedEnableIsNoOp(items: seq<Item>, name: string)
    requires EnabledImpliesSupported(items)
    requires !Enabling(items, name, true).enabled
    ensures Enabling(items, name, true).items == items
  {
    var k := FirstIndex(Names(items), name);
    if k >= 0 {
      assert !items[k].supported && !items[k].enabled;
      assert items[k].(enabled := false) == items[k];
    }
  }

  /** Enabling or disabling never changes what any name reports as supported. */
  lemma EnablingKeepsSupport(items: seq<Item>, name: string, want: bool, other: string)
    ensures SupportedOf(Enabling(items, name, want).items, other) == SupportedOf(items, other)
  {
    assert Names(Enabling(items, name, want).items) == Names(items);
  }

  /** Enabling one name leaves what every other name reports as enabled unchanged. */
  lemma EnablingKeepsOthers(items: seq<Item>, name: string, want: bool, other: string)
    requires other != name
    ensures EnabledOf(Enabling(items, name, want).items, other) == EnabledOf(items, other)
  {
    var r := Enabling(items, name, want).items;
    assert Names(r) == Names(items);
    var k, j := FirstIndex(Names(items), name), FirstIndex(Names(items), other);
    if j >= 0 && k >= 0 {
      assert Names(items)[j] == other && Names(items)[k] == name;
    }
  }

  /** The registry after one Enumerate* exchange: loaded only when both calls succeeded with a non-zero count. */
  function Enumerated(items: seq<Item>, query: Enumeration): (r: seq<Item>)
    ensures Names(r) == Names(items)
    ensures EnabledImpliesSupported(items) ==> EnabledImpliesSupported(r)
    ensures !query.Loads() ==> r == items
  {
    if query.Loads() then Loaded(items, query.names) else items
  }

  /** Loading the names `a` and then `b` is loading `a + b` (the outer loop of LoadExtensions). */
  lemma LoadedConcat(items: seq<Item>, a: seq<string>, b: seq<string>)
    ensures Loaded(Loaded(items, a), b) == Loaded(items, a + b)
  {
    var l, r := Loaded(Loaded(items, a), b), Loaded(items, a + b);
    forall i | 0 <= i < |items| ensures l[i] == r[i] {
      assert Loaded(items, a)[i].name == items[i].name;
    }
  }

  class EnabledItemVector {
    var items: seq<Item>
    var enabledNames: seq<string>

    ghost predicate Valid()
      reads this
    {
      EnabledImpliesSupported(items)
    }

    /** The catalogue's push_back sequence: every item unsupported and disabled. */
    constructor (catalogue: seq<string>)
      ensures items == Registered(catalogue) && enabledNames == []
      ensures Valid()
    {
      items := Registered(catalogue);
      enabledNames := [];
      RegisteredIsInert(catalogue, "");
    }

    /** Linear search by exact name; -1 stands for `SIZE_MAX`. */
    method Find(name: string) returns (index: int)
      ensures index == FirstIndex(Names(items), name)
    {
      for i := 0 to |items|
        invariant name !in Names(items)[..i]
      {
        if items[i].name == name {
          assert Names(items)[i] == name;
          return i;
        }
      }
      assert Names(items)[..|items|] == Names(items);
      return -1;
    }

    method IsSupported(name: string) returns (supported: bool)
      ensures supported == SupportedOf(items, name)
    {
      var index := Find(name);
      if index != -1 {
        return items[index].supported;
      }
      // The source asserts here: only catalogue names may be queried.
      return false;
    }

    method IsEnabled(name: string) returns (enabled: bool)
      ensures enabled == EnabledOf(items, name)
    {
      var index := Find(name);
      if index != -1 {
        return items[index].enabled;
      }
      // The source asserts here: only catalogue names may be queried.
      return false;
    }

    method Enable(name: string, enabled: bool) returns (ok: bool)
      modifies this`items
      ensures Enabling(old(items), name, enabled) == EnableOutcome(items, ok)
      ensures old(Valid()) ==> Valid()
    {
      var index := Find(name);
      if index != -1 {
        if enabled && items[index].supported {
          items := items[index := items[index].(enabled := true)];
          return true;
        }
        items := items[index := items[index].(enabled := false)];
        return false;
      }
      // The source asserts here: only catalogue names may be enabled.
      return false;
    }

    method EnableAll(enabled: bool)
      modifies this`items
      ensures items == WithAllEnabled(old(items), enabled)
      ensures Valid()
    {
      for i := 0 to |items|
        invariant |items| == |old(items)|
        invariant items[..i] == WithAllEnabled(old(items), enabled)[..i]
        invariant items[i..] == old(items)[i..]
      {
        items := items[i := items[i].(enabled := enabled && items[i].supported)];
      }
    }

    /** Rebuilds the list of enabled names from scratch, in declaration order. */
    method PrepareEnabled()
      requires Valid()
      modifies this`enabledNames
      ensures enabledNames == EnabledNames(items)
    {
      enabledNames := [];
      for i := 0 to |items|
        invariant enabledNames == EnabledNames(items[..i])
      {
        assert items[..i + 1][..i] == items[..i];
        if items[i].enabled {
          assert items[i].supported;
          enabledNames := enabledNames + [items[i].name];
        }
      }
      assert items[..|items|] == items;
    }

    /**
      * The nested loop of LoadExtensions and LoadLayers: every item whose
      * name equals a reported name becomes supported and enabled.
      */
    method MarkReported(reported: seq<string>)
      modifies this`items
      ensures items == Loaded(old(items), reported)
      ensures old(Valid()) ==> Valid()
    {
      for p := 0 to |reported|
        invariant items == Loaded(old(items), reported[..p])
      {
        ghost var before := items;
        for i := 0 to |items|
          invariant |items| == |before|
          invariant forall j :: 0 <= j < |items| ==>
            items[j] == if j < i && before[j].name == reported[p]
                        then before[j].(supported := true, enabled := true) else before[j]
        {
          if reported[p] == items[i].name {
            items := items[i := items[i].(supported := true, enabled := true)];
          }
        }
        assert items == Loaded(before, [reported[p]]);
        LoadedConcat(old(items), reported[..p], [reported[p]]);
        assert reported[..p] + [reported[p]] == reported[..p + 1];
      }
      assert reported[..|reported|] == reported;
    }
  }

  /** Rebuilding the list twice with no change in between gives the same list, the one the items determine. */
  method PrepareEnabledTwice(v: EnabledItemVector) returns (first: seq<string>, second: seq<string>)
    requires v.Valid()
    modifies v`enabledNames
    ensures first == second == EnabledNames(v.items)
  {
    v.PrepareEnabled();
    first := v.enabledNames;
    v.PrepareEnabled();
    second := v.enabledNames;
  }
}
