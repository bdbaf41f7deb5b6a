/**
 * HomeAssistant entities as the gateway sees them, the configurable entity
 * filter, and the mapper that gives every entity a small number so that radio
 * operators can type "ON 3" instead of "ON light.kitchen".
 */
module Filters {
  import opened Wrappers
  import opened Text

  /** The attribute values the gateway inspects (floats are not modelled). */
  datatype AttrValue = AStr(s: string) | AInt(i: int) | ABool(b: bool) | ANone | AIntList(items: seq<int>)

  /** Python's `==` on attribute values: `True == 1` and `False == 0` hold. */
  predicate PyEq(a: AttrValue, b: AttrValue) {
    match (a, b)
    case (ABool(x), AInt(y)) => (if x then 1 else 0) == y
    case (AInt(x), ABool(y)) => x == (if y then 1 else 0)
    case _ => a == b
  }

  /** Python truthiness of an attribute value. */
  predicate Truthy(v: AttrValue) {
    match v
    case AStr(s) => s != ""
    case AInt(i) => i != 0
    case ABool(b) => b
    case ANone => false
    case AIntList(items) => items != []
  }

  /** `str(v)` */
  function PyStr(v: AttrValue): string {
    match v
    case AStr(s) => s
    case AInt(i) => IntToString(i)
    case ABool(b) => if b then "True" else "False"
    case ANone => "None"
    case AIntList(items) => "[" + Join(", ", IntStrings(items)) + "]"
  }

  function IntStrings(items: seq<int>): (r: seq<string>)
    ensures |r| == |items|
    ensures forall k :: 0 <= k < |items| ==> r[k] == IntToString(items[k])
  {
    if items == [] then [] else [IntToString(items[0])] + IntStrings(items[1..])
  }

  /**
   * An entity record: its `entity_id` and `state` keys (either may be missing)
   * and its attributes (a missing `attributes` key is the empty map).
   */
  datatype Entity = Entity(entityId: Option<string>, state: Option<string>, attributes: map<string, AttrValue>) {
    /** `entity.get('entity_id', '')` */
    function Id(): string {
      entityId.GetOr("")
    }

    /** `attributes.get(name)` */
    function Attr(name: string): AttrValue {
      if name in attributes then attributes[name] else ANone
    }
  }

  /** The domain of an entity id: the text before the first '.', or '' when there is no dot. */
  function DomainOf(id: string): (d: string)
    ensures '.' !in d
    ensures '.' in id ==> d + "." <= id
    ensures '.' !in id ==> d == ""
  {
    if '.' in id then
      var d := BeforeFirst(id, '.');
      assert id[..|d| + 1] == d + ".";
      d
    else ""
  }

  /**
   * `fnmatch` with `*` (any run of characters) and `?` (any one character); every
   * other pattern character, '[' included, matches itself.
   */
  predicate GlobMatch(s: string, p: string)
    decreases |p|, |s|
  {
    if p == [] then s == []
    else if p[0] == '*' then GlobMatch(s, p[1..]) || (s != [] && GlobMatch(s[1..], p))
    else s != [] && (p[0] == '?' || p[0] == s[0]) && GlobMatch(s[1..], p[1..])
  }

  predicate IsLiteralPattern(p: string) {
    forall i :: 0 <= i < |p| ==> p[i] != '*' && p[i] != '?'
  }

  /** A pattern without wildcards matches exactly the identical id. */
  lemma {:induction false} GlobLiteral(s: string, p: string)
    requires IsLiteralPattern(p)
    ensures GlobMatch(s, p) <==> s == p
    decreases |p|
  {
    if p != [] && s != [] {
      GlobLiteral(s[1..], p[1..]);
      if s[1..] == p[1..] && s[0] == p[0] {
        assert s == [s[0]] + s[1..] && p == [p[0]] + p[1..];
      }
    }
  }

  /** A lone `*` matches every id. */
  lemma {:induction false} GlobStarMatchesAll(s: string)
    ensures GlobMatch(s, "*")
    decreases |s|
  {
    assert "*"[1..] == [];
    if s != [] {
      GlobStarMatchesAll(s[1..]);
    }
  }

  /** `prefix*` for a literal prefix matches exactly the ids that start with it. */
  lemma {:induction false} GlobPrefixStar(s: string, lit: string)
    requires IsLiteralPattern(lit)
    ensures GlobMatch(s, lit + "*") <==> lit <= s
    decreases |lit|
  {
    if lit == [] {
      assert lit + "*" == "*";
      GlobStarMatchesAll(s);
    } else {
      assert (lit + "*")[0] == lit[0];
      assert (lit + "*")[1..] == lit[1..] + "*";
      if s != [] {
        GlobPrefixStar(s[1..], lit[1..]);
        if lit[0] == s[0] && lit[1..] <= s[1..] {
          assert lit == [lit[0]] + lit[1..];
        }
      }
    }
  }

  /** The filter configuration; `includedDomains` is None when the list was missing or empty. */
  datatype EntityFilter = EntityFilter(
    includedDomains: Option<set<string>>,
    excludedEntities: seq<string>,
    excludedAttributes: map<string, AttrValue>)

  /** The constructor: an empty domain list means every domain is included. */
  function NewFilter(included: Option<seq<string>>, excluded: Option<seq<string>>,
                     excludedAttrs: Option<map<string, AttrValue>>): (f: EntityFilter)
    ensures f.includedDomains.Some? <==> included.Some? && included.value != []
    ensures f.includedDomains.Some? ==> forall d :: d in f.includedDomains.value <==> d in included.value
    ensures f.excludedEntities == excluded.GetOr([])
    ensures f.excludedAttributes == excludedAttrs.GetOr(map[])
  {
    EntityFilter(
      if included.Some? && included.value != [] then Some(set d | d in included.value) else None,
      excluded.GetOr([]),
      excludedAttrs.GetOr(map[]))
  }

  /** The `for pattern in excluded_entities` loop: does some pattern match the id? */
  function AnyPatternMatches(id: string, patterns: seq<string>): (b: bool)
    ensures b <==> exists k :: 0 <= k < |patterns| && GlobMatch(id, patterns[k])
  {
    if patterns == [] then false
    else if GlobMatch(id, patterns[0]) then true
    else
      var rest := AnyPatternMatches(id, patterns[1..]);
      assert rest ==> exists k :: 0 <= k < |patterns| && GlobMatch(id, patterns[k]) by {
        if rest {
          var k :| 0 <= k < |patterns| - 1 && GlobMatch(id, patterns[1..][k]);
          assert GlobMatch(id, patterns[k + 1]);
        }
      }
      rest
  }

  /** The `for attr_name, excluded_value in ...` loop: does some excluded attribute value occur? */
  predicate AnyAttributeExcluded(e: Entity, excluded: map<string, AttrValue>) {
    exists name :: name in excluded && PyEq(e.Attr(name), excluded[name])
  }

  /** The domain test: no (or an empty) domain set, or the entity's domain is in it. */
  predicate DomainAllowed(f: EntityFilter, e: Entity) {
    f.includedDomains == None || f.includedDomains.value == {} || DomainOf(e.Id()) in f.includedDomains.value
  }

  /**
   * `should_include_entity`: kept exactly when the domain is allowed, no excluded
   * pattern matches the id, and no excluded attribute has the excluded value.
   */
  function ShouldInclude(f: EntityFilter, e: Entity): (b: bool)
    ensures b <==> && DomainAllowed(f, e)
                   && (forall k :: 0 <= k < |f.excludedEntities| ==> !GlobMatch(e.Id(), f.excludedEntities[k]))
                   && (forall name :: name in f.excludedAttributes ==> !PyEq(e.Attr(name), f.excludedAttributes[name]))
  {
    var domain := DomainOf(e.Id());
    if f.includedDomains.Some? && f.includedDomains.value != {} && domain !in f.includedDomains.value then false
    else if AnyPatternMatches(e.Id(), f.excludedEntities) then false
    else !AnyAttributeExcluded(e, f.excludedAttributes)
  }

  /** `filter_entities`: the included entities, in their original order. */
  function FilterEntities(f: EntityFilter, es: seq<Entity>): (r: seq<Entity>)
    ensures |r| <= |es|
    ensures forall e :: e in r <==> e in es && ShouldInclude(f, e)
  {
    if es == [] then []
    else (if ShouldInclude(f, es[0]) then [es[0]] else []) + FilterEntities(f, es[1..])
  }

  /** Filtering a concatenation filters each part: the original order is kept. */
  lemma {:induction false} FilterEntitiesAppend(f: EntityFilter, a: seq<Entity>, b: seq<Entity>)
    ensures FilterEntities(f, a + b) == FilterEntities(f, a) + FilterEntities(f, b)
    decreases |a|
  {
    if a != [] {
      assert (a + b)[0] == a[0] && (a + b)[1..] == a[1..] + b;
      FilterEntitiesAppend(f, a[1..], b);
      var h := if ShouldInclude(f, a[0]) then [a[0]] else [];
      var fa, fb := FilterEntities(f, a[1..]), FilterEntities(f, b);
      assert FilterEntities(f, a + b) == h + (fa + fb);
      assert h + (fa + fb) == (h + fa) + fb;
    } else {
      assert a + b == b;
    }
  }

  /** A filter with no settings keeps every entity. */
  lemma {:induction false} EmptyFilterKeepsAll(es: seq<Entity>)
    ensures FilterEntities(EntityFilter(None, [], map[]), es) == es
    decreases |es|
  {
    if es != [] {
      EmptyFilterKeepsAll(es[1..]);
    }
  }

  /** Python's `a < b` on strings. */
  predicate LexLt(a: string, b: string) {
    LexLe(a, b) && a != b
  }

  predicate StrictlySorted(xs: seq<string>) {
    forall i, j :: 0 <= i < j < |xs| ==> LexLt(xs[i], xs[j])
  }

  /** Insert `d` into a strictly sorted list unless it is already there. */
  function InsertSorted(xs: seq<string>, d: string): (r: seq<string>)
    requires StrictlySorted(xs)
    ensures StrictlySorted(r)
    ensures forall x :: x in r <==> x in xs || x == d
  {
    if xs == [] then [d]
    else if xs[0] == d then xs
    else if LexLe(d, xs[0]) then
      assert forall j :: 0 <= j < |xs| ==> LexLt(d, xs[j]) by {
        forall j | 0 <= j < |xs| ensures LexLt(d, xs[j]) {
          if j > 0 {
            LexLeTrans(d, xs[0], xs[j]);
            if d == xs[j] {
              LexLeAntisym(xs[0], xs[j]);
            }
          }
        }
      }
      [d] + xs
    else
      var rest := InsertSorted(xs[1..], d);
      LexLeTotal(d, xs[0]);
      assert forall j :: 0 <= j < |rest| ==> LexLt(xs[0], rest[j]) by {
        forall j | 0 <= j < |rest| ensures LexLt(xs[0], rest[j]) {
          assert rest[j] in rest;
          if rest[j] != d {
            var k :| 0 <= k < |xs[1..]| && xs[1..][k] == rest[j];
            assert xs[k + 1] == rest[j];
          }
        }
      }
      [xs[0]] + rest
  }

  /** The domains of the entities that have a dot in their id. */
  ghost function DomainSet(es: seq<Entity>): set<string> {
    set e | e in es && '.' in e.Id() :: DomainOf(e.Id())
  }

  /** `get_domains`: the distinct domains, sorted; ids without a dot contribute nothing. */
  function GetDomains(es: seq<Entity>): (r: seq<string>)
    ensures StrictlySorted(r)
    ensures forall d :: d in r <==> d in DomainSet(es)
  {
    if es == [] then []
    else
      var rest := GetDomains(es[..|es| - 1]);
      var e := es[|es| - 1];
      assert forall x :: x in es <==> x in es[..|es| - 1] || x == e by {
        assert es == es[..|es| - 1] + [e];
      }
      if '.' in e.Id() then InsertSorted(rest, DomainOf(e.Id())) else rest
  }

  /** `filter_by_domain`: the entities whose id starts with "<domain>.", in order. */
  function FilterByDomain(es: seq<Entity>, domain: string): (r: seq<Entity>)
    ensures |r| <= |es|
    ensures forall e :: e in r <==> e in es && domain + "." <= e.Id()
  {
    if es == [] then []
    else (if domain + "." <= es[0].Id() then [es[0]] else []) + FilterByDomain(es[1..], domain)
  }

  /** For a domain without a dot, starting with "<domain>." is the same as having that domain. */
  lemma StartsWithDomainIff(id: string, domain: string)
    requires '.' !in domain
    ensures domain + "." <= id <==> '.' in id && DomainOf(id) == domain
  {
    if domain + "." <= id {
      assert id[|domain|] == '.';
      var d := DomainOf(id);
      assert d == id[..|d|] && domain == id[..|domain|];
    }
  }

  // ---------------------------------------------------------------------------
  // The numeric id mapper.

  /** The mapper's two dictionaries and its counter. */
  datatype MapperState = MapperState(idToEntity: map<int, Entity>, entityIdToId: map<string, int>, nextId: int)

  const EmptyMapper := MapperState(map[], map[], 1)

  /**
   * The mapper's invariant: numbers 1 .. nextId-1 are exactly the assigned ones,
   * every stored entity has a non-empty id, and the two maps are mutual inverses.
   */
  ghost predicate MapperValid(st: MapperState) {
    && st.nextId >= 1
    && |st.idToEntity| == st.nextId - 1
    && (forall n :: n in st.idToEntity <==> 1 <= n < st.nextId)
    && (forall n :: n in st.idToEntity ==> st.idToEntity[n].entityId.Some? && st.idToEntity[n].entityId.value != "")
    && (forall n :: n in st.idToEntity ==> st.idToEntity[n].Id() in st.entityIdToId && st.entityIdToId[st.idToEntity[n].Id()] == n)
    && (forall k :: k in st.entityIdToId ==> st.entityIdToId[k] in st.idToEntity && st.idToEntity[st.entityIdToId[k]].entityId == Some(k))
  }

  lemma EmptyMapperValid()
    ensures MapperValid(EmptyMapper)
  {
  }

  /** One step of `add_entities`: skip a missing, empty or already-mapped id, else take the next number. */
  function AddOne(st: MapperState, e: Entity): MapperState {
    match e.entityId
    case None => st
    case Some(id) =>
      if id == "" || id in st.entityIdToId then st
      else MapperState(st.idToEntity[st.nextId := e], st.entityIdToId[id := st.nextId], st.nextId + 1)
  }

  /** `add_entities` over an already-sorted list: AddOne for each entity in turn. */
  function AddAll(st: MapperState, es: seq<Entity>): MapperState {
    if es == [] then st else AddOne(AddAll(st, es[..|es| - 1]), es[|es| - 1])
  }

  /** One step keeps the invariant, keeps every existing mapping and maps the entity's id. */
  lemma AddOneSpec(st: MapperState, e: Entity)
    requires MapperValid(st)
    ensures MapperValid(AddOne(st, e))
    ensures AddOne(st, e).nextId >= st.nextId
    ensures forall k :: k in st.entityIdToId ==> k in AddOne(st, e).entityIdToId && AddOne(st, e).entityIdToId[k] == st.entityIdToId[k]
    ensures forall n :: n in st.idToEntity ==> n in AddOne(st, e).idToEntity && AddOne(st, e).idToEntity[n] == st.idToEntity[n]
    ensures e.entityId.Some? && e.entityId.value != "" ==> e.entityId.value in AddOne(st, e).entityIdToId
    ensures forall k :: k in AddOne(st, e).entityIdToId ==> k in st.entityIdToId || e.entityId == Some(k)
    ensures e.entityId.Some? && e.entityId.value != "" && e.entityId.value !in st.entityIdToId ==>
      AddOne(st, e).entityIdToId[e.entityId.value] == st.nextId && AddOne(st, e).nextId == st.nextId + 1
    ensures e.entityId.None? || e.entityId.value == "" || e.entityId.value in st.entityIdToId ==> AddOne(st, e) == st
  {
    if AddOne(st, e) != st {
      AddFreshValid(st, e.entityId.value, e);
    }
  }

  /** Numbering a new non-empty id with the next number keeps the invariant. */
  lemma AddFreshValid(st: MapperState, id: string, e: Entity)
    requires MapperValid(st) && e.entityId == Some(id) && id != "" && id !in st.entityIdToId
    ensures MapperValid(MapperState(st.idToEntity[st.nextId := e], st.entityIdToId[id := st.nextId], st.nextId + 1))
  {
    var r := MapperState(st.idToEntity[st.nextId := e], st.entityIdToId[id := st.nextId], st.nextId + 1);
    assert st.nextId !in st.idToEntity;
    assert |r.idToEntity| == r.nextId - 1;
    assert forall n :: n in r.idToEntity <==> 1 <= n < r.nextId;
    forall k | k in r.entityIdToId
      ensures r.entityIdToId[k] in r.idToEntity && r.idToEntity[r.entityIdToId[k]].entityId == Some(k)
    {
      if k != id {
        assert st.entityIdToId[k] != st.nextId;
      }
    }
    forall n | n in r.idToEntity
      ensures r.idToEntity[n].Id() in r.entityIdToId && r.entityIdToId[r.idToEntity[n].Id()] == n
    {
      if n != st.nextId {
        assert st.idToEntity[n].Id() != id;
      }
    }
  }

  /** All of `add_entities`: the invariant holds, old mappings stay, and every non-empty id is mapped. */
  lemma {:induction false} AddAllSpec(st: MapperState, es: seq<Entity>)
    requires MapperValid(st)
    ensures MapperValid(AddAll(st, es))
    ensures AddAll(st, es).nextId >= st.nextId
    ensures forall k :: k in st.entityIdToId ==> k in AddAll(st, es).entityIdToId && AddAll(st, es).entityIdToId[k] == st.entityIdToId[k]
    ensures forall k :: 0 <= k < |es| && es[k].entityId.Some? && es[k].entityId.value != "" ==> es[k].entityId.value in AddAll(st, es).entityIdToId
    ensures forall k :: k in AddAll(st, es).entityIdToId ==> k in st.entityIdToId || exists j :: 0 <= j < |es| && es[j].entityId == Some(k)
    decreases |es|
  {
    if es != [] {
      var init := es[..|es| - 1];
      var mid := AddAll(st, init);
      AddAllSpec(st, init);
      AddOneSpec(mid, es[|es| - 1]);
      forall k | k in AddAll(st, es).entityIdToId
        ensures k in st.entityIdToId || exists j :: 0 <= j < |es| && es[j].entityId == Some(k)
      {
        if k !in st.entityIdToId && es[|es| - 1].entityId != Some(k) {
          var j :| 0 <= j < |init| && init[j].entityId == Some(k);
          assert es[j] == init[j];
        }
      }
      forall k | 0 <= k < |es| && es[k].entityId.Some? && es[k].entityId.value != ""
        ensures es[k].entityId.value in AddAll(st, es).entityIdToId
      {
        if k < |es| - 1 {
          assert es[k] == init[k];
        }
      }
    }
  }

  /**
   * `add_entities` over an id-sorted list numbers the ids new to the mapper from
   * `nextId` on, and in increasing id order: a smaller id gets a smaller number.
   */
  lemma {:induction false} AddAllOrdered(st: MapperState, xs: seq<Entity>)
    requires MapperValid(st) && SortedById(xs)
    ensures var r := AddAll(st, xs);
      forall k :: k in r.entityIdToId && k !in st.entityIdToId ==> r.entityIdToId[k] >= st.nextId
    ensures var r := AddAll(st, xs);
      forall a, b ::
        (a in r.entityIdToId && b in r.entityIdToId && a !in st.entityIdToId && b !in st.entityIdToId && LexLt(a, b))
        ==> r.entityIdToId[a] < r.entityIdToId[b]
    decreases |xs|
  {
    if xs != [] {
      var init, e := xs[..|xs| - 1], xs[|xs| - 1];
      assert SortedById(init) by {
        forall i, j | 0 <= i < j < |init| ensures LexLe(init[i].Id(), init[j].Id()) {
          assert init[i] == xs[i] && init[j] == xs[j];
        }
      }
      var mid := AddAll(st, init);
      AddAllOrdered(st, init);
      AddAllSpec(st, init);
      AddOneSpec(mid, e);
      var r := AddAll(st, xs);
      assert r == AddOne(mid, e);
      if e.entityId.Some? && e.entityId.value != "" && e.entityId.value !in mid.entityIdToId {
        var k := e.entityId.value;
        forall a, b | a in r.entityIdToId && b in r.entityIdToId && a !in st.entityIdToId && b !in st.entityIdToId && LexLt(a, b)
          ensures r.entityIdToId[a] < r.entityIdToId[b]
        {
          if a == k {
            var j :| 0 <= j < |init| && init[j].entityId == Some(b);
            assert xs[j] == init[j] && LexLe(xs[j].Id(), xs[|xs| - 1].Id());
            LexLeAntisym(b, k);
            assert false;
          } else if b == k {
            assert a in mid.entityIdToId && mid.entityIdToId[a] in mid.idToEntity;
          }
        }
      }
    }
  }

  /** The number of mapped entities equals the number of distinct non-empty ids added. */
  lemma MapperCount(st: MapperState)
    requires MapperValid(st)
    ensures |st.idToEntity| == st.nextId - 1
    ensures |st.entityIdToId| == |st.idToEntity|
  {
    var f := st.entityIdToId;
    var keys := f.Keys;
    var vals := st.idToEntity.Keys;
    assert forall n :: n in vals ==> n == f[st.idToEntity[n].Id()];
    assert vals == set k | k in keys :: f[k];
    InjectiveImage(keys, f);
  }

  lemma {:induction false} InjectiveImage(keys: set<string>, f: map<string, int>)
    requires keys <= f.Keys
    requires forall a, b :: a in keys && b in keys && f[a] == f[b] ==> a == b
    ensures |set k | k in keys :: f[k]| == |keys|
    decreases |keys|
  {
    if keys != {} {
      var a :| a in keys;
      var rest := keys - {a};
      InjectiveImage(rest, f);
      assert (set k | k in keys :: f[k]) == (set k | k in rest :: f[k]) + {f[a]};
    }
  }

  /** The example of tests/test_filters.py: three lights added out of order are numbered alphabetically. */
  lemma IdsSortedExample()
    ensures var es := [Entity(Some("light.z_last"), None, map[]), Entity(Some("light.a_first"), None, map[]),
                       Entity(Some("light.m_middle"), None, map[])];
      AddAll(EmptyMapper, SortById(es)).entityIdToId == map["light.a_first" := 1, "light.m_middle" := 2, "light.z_last" := 3]
  {
    LexLtAt("light.a_first", "light.m_middle", 6);
    LexLtAt("light.m_middle", "light.z_last", 6);
    ThreeNumbered("light.a_first", "light.m_middle", "light.z_last");
  }

  /** Three entities with ids a < m < z, given in the order z, a, m, are numbered 1, 2, 3 alphabetically. */
  lemma ThreeNumbered(a: string, m: string, z: string)
    requires a != "" && LexLt(a, m) && LexLt(m, z)
    ensures var es := [Entity(Some(z), None, map[]), Entity(Some(a), None, map[]), Entity(Some(m), None, map[])];
      AddAll(EmptyMapper, SortById(es)).entityIdToId == map[a := 1, m := 2, z := 3]
  {
    var es := [Entity(Some(z), None, map[]), Entity(Some(a), None, map[]), Entity(Some(m), None, map[])];
    var sorted := SortById(es);
    var r := AddAll(EmptyMapper, sorted);
    if a == z {
      LexLeAntisym(a, m);
    }
    EmptyMapperValid();
    ThreeKeys(a, m, z, es, sorted);
    AddAllOrdered(EmptyMapper, sorted);
    assert r.entityIdToId[a] < r.entityIdToId[m] < r.entityIdToId[z];
    MapperCount(r);
    ThreeCard(r.entityIdToId, a, m, z);
    forall k | k in r.entityIdToId ensures 1 <= r.entityIdToId[k] <= 3 {
      assert r.entityIdToId[k] in r.idToEntity;
    }
    ThreeValues(r.entityIdToId, a, m, z);
  }

  /** Adding the entities of `z, a, m` in any order maps exactly their three ids. */
  lemma ThreeKeys(a: string, m: string, z: string, es: seq<Entity>, sorted: seq<Entity>)
    requires a != "" && m != "" && z != ""
    requires es == [Entity(Some(z), None, map[]), Entity(Some(a), None, map[]), Entity(Some(m), None, map[])]
    requires multiset(sorted) == multiset(es)
    ensures MapperValid(AddAll(EmptyMapper, sorted))
    ensures forall k :: k in AddAll(EmptyMapper, sorted).entityIdToId <==> k == a || k == m || k == z
  {
    EmptyMapperValid();
    AddAllSpec(EmptyMapper, sorted);
    PermutedKeysIn(es, sorted);
    PermutedKeysFrom(es, sorted);
    var r := AddAll(EmptyMapper, sorted);
    assert es[0].entityId.value == z && es[1].entityId.value == a && es[2].entityId.value == m;
    forall k | k in r.entityIdToId ensures k == a || k == m || k == z {
      var e :| e in es && e.entityId == Some(k);
    }
  }

  /** Every non-empty id among the entities added, in whatever order, gets a number. */
  lemma PermutedKeysIn(es: seq<Entity>, sorted: seq<Entity>)
    requires multiset(sorted) == multiset(es)
    ensures forall i :: 0 <= i < |es| && es[i].entityId.Some? && es[i].entityId.value != "" ==>
      es[i].entityId.value in AddAll(EmptyMapper, sorted).entityIdToId
  {
    EmptyMapperValid();
    AddAllSpec(EmptyMapper, sorted);
    forall i | 0 <= i < |es| && es[i].entityId.Some? && es[i].entityId.value != ""
      ensures es[i].entityId.value in AddAll(EmptyMapper, sorted).entityIdToId
    {
      assert es[i] in multiset(sorted);
      var j :| 0 <= j < |sorted| && sorted[j] == es[i];
    }
  }

  /** Starting from no mapping, only ids of the entities added get a number. */
  lemma PermutedKeysFrom(es: seq<Entity>, sorted: seq<Entity>)
    requires multiset(sorted) == multiset(es)
    ensures forall k :: k in AddAll(EmptyMapper, sorted).entityIdToId ==> exists e :: e in es && e.entityId == Some(k)
  {
    EmptyMapperValid();
    AddAllSpec(EmptyMapper, sorted);
    forall k | k in AddAll(EmptyMapper, sorted).entityIdToId ensures exists e :: e in es && e.entityId == Some(k) {
      var j :| 0 <= j < |sorted| && sorted[j].entityId == Some(k);
      assert sorted[j] in multiset(es);
    }
  }

  /** A map whose keys are exactly three distinct strings has three entries. */
  lemma ThreeCard<V>(f: map<string, V>, a: string, m: string, z: string)
    requires a != m && m != z && a != z
    requires forall k :: k in f <==> k == a || k == m || k == z
    ensures |f| == 3
  {
    assert f.Keys == {a, m, z};
  }

  /** A numbering of three keys by 1..3 that respects their order is 1, 2, 3. */
  lemma ThreeValues(f: map<string, int>, a: string, m: string, z: string)
    requires forall k :: k in f <==> k == a || k == m || k == z
    requires forall k :: k in f ==> 1 <= f[k] <= 3
    requires f[a] < f[m] < f[z]
    ensures f == map[a := 1, m := 2, z := 3]
  {
  }

  /** Strings that agree before index i and differ there by a smaller character are in order. */
  lemma {:induction false} LexLtAt(a: string, b: string, i: nat)
    requires i < |a| && i < |b| && a[..i] == b[..i] && a[i] < b[i]
    ensures LexLt(a, b)
    decreases i
  {
    if i > 0 {
      assert a[1..][..i - 1] == a[..i][1..] && b[1..][..i - 1] == b[..i][1..];
      LexLtAt(a[1..], b[1..], i - 1);
      assert a[0] == a[..i][0] && b[0] == b[..i][0];
    }
    assert a[i] != b[i];
  }

  predicate SortedById(xs: seq<Entity>) {
    forall i, j :: 0 <= i < j < |xs| ==> LexLe(xs[i].Id(), xs[j].Id())
  }

  /** Python's `sorted(..., key=entity_id)`: a stable insertion sort by id. */
  function SortById(es: seq<Entity>): (r: seq<Entity>)
    ensures multiset(r) == multiset(es)
    ensures SortedById(r)
  {
    if es == [] then []
    else
      assert es == es[..|es| - 1] + [es[|es| - 1]];
      InsertById(SortById(es[..|es| - 1]), es[|es| - 1])
  }

  /** Insert `e` after every entity whose id is not greater than its own (so equal ids keep their order). */
  function InsertById(xs: seq<Entity>, e: Entity): (r: seq<Entity>)
    requires SortedById(xs)
    ensures multiset(r) == multiset(xs) + multiset{e}
    ensures forall x :: x in r <==> x in xs || x == e
    ensures SortedById(r)
  {
    if xs == [] then [e]
    else if LexLe(xs[0].Id(), e.Id()) then
      var rest := InsertById(xs[1..], e);
      HeadBoundsTail(xs);
      LowerBoundKept(xs[0], xs[1..], e, rest);
      assert xs == [xs[0]] + xs[1..];
      ConsSorted(xs[0], rest);
      [xs[0]] + rest
    else
      BelowHead(e, xs);
      ConsSorted(e, xs);
      [e] + xs
  }

  lemma HeadBoundsTail(xs: seq<Entity>)
    requires SortedById(xs) && xs != []
    ensures SortedById(xs[1..])
    ensures forall j :: 0 <= j < |xs[1..]| ==> LexLe(xs[0].Id(), xs[1..][j].Id())
  {
    forall j | 0 <= j < |xs[1..]| ensures LexLe(xs[0].Id(), xs[1..][j].Id()) {
      assert xs[1..][j] == xs[j + 1];
    }
  }

  /** An entity whose id sorts before the first id of a sorted sequence sorts before all of it. */
  lemma BelowHead(e: Entity, xs: seq<Entity>)
    requires SortedById(xs) && xs != [] && !LexLe(xs[0].Id(), e.Id())
    ensures forall j :: 0 <= j < |xs| ==> LexLe(e.Id(), xs[j].Id())
  {
    LexLeTotal(xs[0].Id(), e.Id());
    forall j | 0 <= j < |xs| ensures LexLe(e.Id(), xs[j].Id()) {
      if j > 0 {
        LexLeTrans(e.Id(), xs[0].Id(), xs[j].Id());
      }
    }
  }

  /** A lower bound of every entity of `ys` and of `e` bounds every entity of `r`, which holds only those. */
  lemma LowerBoundKept(x: Entity, ys: seq<Entity>, e: Entity, r: seq<Entity>)
    requires forall j :: 0 <= j < |ys| ==> LexLe(x.Id(), ys[j].Id())
    requires LexLe(x.Id(), e.Id())
    requires forall y :: y in r ==> y in ys || y == e
    ensures forall j :: 0 <= j < |r| ==> LexLe(x.Id(), r[j].Id())
  {
    forall j | 0 <= j < |r| ensures LexLe(x.Id(), r[j].Id()) {
      assert r[j] in r;
      if r[j] != e {
        var k :| 0 <= k < |ys| && ys[k] == r[j];
      }
    }
  }

  lemma ConsSorted(x: Entity, rest: seq<Entity>)
    requires SortedById(rest)
    requires forall j :: 0 <= j < |rest| ==> LexLe(x.Id(), rest[j].Id())
    ensures SortedById([x] + rest)
  {
    var r := [x] + rest;
    forall i, j | 0 <= i < j < |r| ensures LexLe(r[i].Id(), r[j].Id()) {
      if i > 0 {
        assert r[i] == rest[i - 1] && r[j] == rest[j - 1];
      } else {
        assert r[j] == rest[j - 1];
      }
    }
  }

  /** The mapper object whose dictionaries `add_entities`, `clear` and `refresh` update in place. */
  class EntityMapper {
    var idToEntity: map<int, Entity>
    var entityIdToId: map<string, int>
    var nextId: int

    function State(): MapperState
      reads this
    {
      MapperState(idToEntity, entityIdToId, nextId)
    }

    ghost predicate Valid()
      reads this
    {
      MapperValid(State())
    }

    constructor ()
      ensures Valid() && State() == EmptyMapper
    {
      idToEntity, entityIdToId, nextId := map[], map[], 1;
    }

    /** `add_entities`: sort by id, then number each new non-empty id consecutively. */
    method AddEntities(es: seq<Entity>)
      requires Valid()
      modifies this
      ensures Valid()
      ensures State() == AddAll(old(State()), SortById(es))
      ensures forall k :: k in entityIdToId && k !in old(entityIdToId) ==> entityIdToId[k] >= old(nextId)
      ensures forall a, b ::
        (a in entityIdToId && b in entityIdToId && a !in old(entityIdToId) && b !in old(entityIdToId) && LexLt(a, b))
        ==> entityIdToId[a] < entityIdToId[b]
    {
      var sorted := SortById(es);
      ghost var start := State();
      var i := 0;
      while i < |sorted|
        invariant 0 <= i <= |sorted|
        invariant State() == AddAll(start, sorted[..i])
        invariant Valid()
      {
        var e := sorted[i];
        assert sorted[..i + 1][..i] == sorted[..i];
        assert AddOne(State(), e) == AddAll(start, sorted[..i + 1]);
        AddOneSpec(State(), e);
        Number(e);
        i := i + 1;
      }
      assert sorted[..i] == sorted;
      AddAllOrdered(start, sorted);
    }

    /** The loop body of `add_entities`: a new non-empty id gets the next number. */
    method Number(e: Entity)
      modifies this
      ensures State() == AddOne(old(State()), e)
    {
      if e.entityId.Some? && e.entityId.value != "" && e.entityId.value !in entityIdToId {
        var n := nextId;
        nextId := nextId + 1;
        idToEntity := idToEntity[n := e];
        entityIdToId := entityIdToId[e.entityId.value := n];
      }
    }

    /** `get_by_id`: the entity with that number, if any; its own id maps back to the number. */
    function GetById(n: int): (r: Option<Entity>)
      reads this
      requires Valid()
      ensures r.Some? <==> 1 <= n < nextId
      ensures r.Some? ==> r.value.entityId.Some? && GetId(r.value.entityId.value) == Some(n)
      ensures 1 <= n < nextId ==> r == Some(idToEntity[n])
    {
      if n in idToEntity then Some(idToEntity[n]) else None
    }

    /** `get_id`: the number of an entity id, if mapped; that number leads back to the id. */
    function GetId(id: string): (r: Option<int>)
      reads this
      requires Valid()
      ensures r.Some? ==> 1 <= r.value < nextId
      ensures r.Some? ==> r.value in idToEntity && idToEntity[r.value].entityId == Some(id)
    {
      if id in entityIdToId then Some(entityIdToId[id]) else None
    }

    /** `get_all`: the mapped entities in increasing numeric order. */
    function GetAll(): (r: seq<Entity>)
      reads this
      requires Valid()
      ensures |r| == Count()
      ensures forall k :: 0 <= k < |r| ==> GetById(k + 1) == Some(r[k])
    {
      MapperCount(State());
      var m, n := idToEntity, nextId;
      seq(n - 1, k requires 0 <= k < n - 1 => m[k + 1])
    }

    /** `clear` */
    method Clear()
      modifies this
      ensures Valid() && State() == EmptyMapper
    {
      idToEntity, entityIdToId, nextId := map[], map[], 1;
    }

    /** `refresh`: clear, then add the new list. */
    method Refresh(es: seq<Entity>)
      modifies this
      ensures Valid()
      ensures State() == AddAll(EmptyMapper, SortById(es))
    {
      Clear();
      AddEntities(es);
    }

    /** `count`: the number of mapped entities, which is also the last number handed out. */
    function Count(): (r: int)
      reads this
      requires Valid()
      ensures r == |idToEntity| && r == |entityIdToId|
      ensures r == nextId - 1
    {
      MapperCount(State());
      |idToEntity|
    }
  }
}
