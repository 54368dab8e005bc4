/** Adding scenarigo's own members to the baggage header of a request.

    A header is its comma-separated parts. What the baggage parser makes of a part, and how long a
    member is when it is encoded, is taken as given: a valid part carries its member and its size. */
module Baggage {
  import opened Options

  /** A member with its encoded size. */
  datatype Member = Member(key: string, value: string, size: nat)

  /** A part of the header between commas. */
  datatype Part = Blank(size: nat) | Valid(member: Member, size: nat) | Malformed(size: nat)

  // Limits of W3C Baggage, section 3, Baggage HTTP Header Format, "Limits".
  const MAX_BYTES := 8192
  const MAX_MEMBERS := 64

  /** Bounds what scenarigo adds. */
  const TARGET_BYTES := 2048

  const PREFIX := "scenarigo."
  const TRUNCATED_KEY := "scenarigo.truncated"
  const MARKER := Member(TRUNCATED_KEY, "true", |TRUNCATED_KEY| + |"=true"|)

  predicate Own(key: string) {
    PREFIX <= key
  }

  function RawLength(parts: seq<Part>): nat {
    if parts == [] then 0
    else parts[0].size + (if |parts| > 1 then 1 else 0) + RawLength(parts[1..])
  }

  function CountParts(parts: seq<Part>): nat {
    if parts == [] then 0 else CountParts(parts[..|parts| - 1]) + if parts[|parts| - 1].Blank? then 0 else 1
  }

  /** Sizes of members without separators. */
  function Sizes(members: seq<Member>): nat {
    if members == [] then 0 else Sizes(members[..|members| - 1]) + members[|members| - 1].size
  }

  function EncodedLength(members: seq<Member>): nat {
    Sizes(members) + if |members| > 1 then |members| - 1 else 0
  }

  /** Baggage is a set of members with different keys; the order of the list means nothing. */
  predicate IsBag(bag: seq<Member>) {
    forall i, j | 0 <= i < j < |bag| :: bag[i].key != bag[j].key
  }

  function DeleteMember(bag: seq<Member>, key: string): seq<Member> {
    if bag == [] then []
    else (if bag[0].key == key then [] else [bag[0]]) + DeleteMember(bag[1..], key)
  }

  function SetMember(bag: seq<Member>, m: Member): seq<Member> {
    DeleteMember(bag, m.key) + [m]
  }

  /** What the parser reads; the last of several members with one key stays. */
  function Parsed(parts: seq<Part>): seq<Member> {
    if parts == [] then []
    else
      var p := parts[|parts| - 1];
      var bag := Parsed(parts[..|parts| - 1]);
      if p.Valid? then SetMember(bag, p.member) else bag
  }

  method CountMembers(parts: seq<Part>) returns (n: nat)
    ensures n == CountParts(parts)
  {
    n := 0;
    for i := 0 to |parts|
      invariant n == CountParts(parts[..i])
    {
      assert parts[..i + 1][..i] == parts[..i];
      if !parts[i].Blank? {
        n := n + 1;
      }
    }
    assert parts[..|parts|] == parts;
  }

  /** Drops optional members, first to last, until what is left fits. */
  method FitMembers(required: seq<Member>, optional: seq<Member>) returns (members: seq<Member>, truncated: bool)
    ensures exists k | 0 <= k <= |optional| ::
      Dropped(required, optional, k) && members == required + optional[k..] && truncated == (k > 0)
  {
    var k, limit := 0, TARGET_BYTES;
    while k < |optional| && EncodedLength(required + optional[k..]) > limit
      invariant 0 <= k <= |optional|
      invariant limit == Limit(k)
      invariant forall j | 0 <= j < k :: EncodedLength(required + optional[j..]) > Limit(j)
    {
      k := k + 1;
      limit := TARGET_BYTES - (1 + MARKER.size);
    }
    members, truncated := required + optional[k..], k > 0;
  }

  /** Once a member is dropped, the marker takes its share of the budget. */
  function Limit(dropped: nat): int {
    if dropped == 0 then TARGET_BYTES else TARGET_BYTES - (1 + MARKER.size)
  }

  /** `k` is the least number of optional members to drop for the others to fit, or all of them. */
  predicate Dropped(required: seq<Member>, optional: seq<Member>, k: nat) {
    && k <= |optional|
    && (k < |optional| ==> EncodedLength(required + optional[k..]) <= Limit(k))
    && forall j | 0 <= j < k :: EncodedLength(required + optional[j..]) > Limit(j)
  }

  lemma MarkerAdds(members: seq<Member>)
    ensures EncodedLength(members + [MARKER]) == EncodedLength(members) + MARKER.size + if members == [] then 0 else 1
  {
    assert (members + [MARKER])[..|members|] == members;
  }

  /** What is added, with the marker when something was dropped, fits in the target size unless no
      optional member is left; and a longer suffix of the optional members would not fit. */
  lemma FittedIsLongest(required: seq<Member>, optional: seq<Member>, k: nat)
    requires Dropped(required, optional, k)
    ensures k < |optional| ==>
      EncodedLength(required + optional[k..] + (if k > 0 then [MARKER] else [])) <= 2048
    ensures forall j | 0 <= j < k ::
      EncodedLength(required + optional[j..] + (if j > 0 then [MARKER] else [])) > 2048
  {
    forall j | 0 <= j <= k && j < |optional|
      ensures EncodedLength(required + optional[j..] + (if j > 0 then [MARKER] else []))
        == EncodedLength(required + optional[j..]) + if j > 0 then 1 + MARKER.size else 0
    {
      MarkerAdds(required + optional[j..]);
      assert required + optional[j..] + [] == required + optional[j..];
    }
  }

  /** What a request says about where it comes from. An absent index is an empty text. */
  datatype Metadata = Metadata(
    runId: string, filepath: string, scenarioIndex: string, stepIndex: string, rootFilepath: string,
    rootScenarioIndex: string, scenarioTitle: string, stepName: string)

  datatype Pair = Pair(key: string, value: string)

  function RequiredPairs(m: Metadata): seq<Pair> {
    [Pair("scenarigo.run_id", m.runId), Pair("scenarigo.filepath", m.filepath),
     Pair("scenarigo.scenario_index", m.scenarioIndex), Pair("scenarigo.step_index", m.stepIndex),
     Pair("scenarigo.root_filepath", m.rootFilepath),
     Pair("scenarigo.root_scenario_index", m.rootScenarioIndex)]
  }

  function OptionalPairs(m: Metadata): seq<Pair> {
    [Pair("scenarigo.scenario_title", m.scenarioTitle), Pair("scenarigo.step_name", m.stepName)]
  }

  /** The members for the values that are there and can be carried; `size` gives the encoded size. */
  function Members(pairs: seq<Pair>, size: Pair -> Option<nat>): seq<Member> {
    if pairs == [] then []
    else
      (if pairs[0].value == "" || size(pairs[0]).None? then []
       else [Member(pairs[0].key, pairs[0].value, size(pairs[0]).value)]) + Members(pairs[1..], size)
  }

  /** Members that are not scenarigo's own. */
  function Foreign(bag: seq<Member>): seq<Member> {
    if bag == [] then [] else (if Own(bag[0].key) then [] else [bag[0]]) + Foreign(bag[1..])
  }

  function Header(bag: seq<Member>): seq<Part> {
    if bag == [] then [] else [Valid(bag[0], bag[0].size)] + Header(bag[1..])
  }

  class Carrier {
    var baggage: seq<Part>

    constructor (baggage: seq<Part>)
      ensures this.baggage == baggage
    {
      this.baggage := baggage;
    }
  }

  /** The members of the user and of this request, as they go into the header if they fit. */
  ghost predicate Merged(before: seq<Part>, meta: Metadata, size: Pair -> Option<nat>, bag: seq<Member>) {
    exists k | 0 <= k <= |Members(OptionalPairs(meta), size)| ::
      Dropped(Members(RequiredPairs(meta), size), Members(OptionalPairs(meta), size), k) &&
      bag == Foreign(Parsed(before)) + Added(meta, size, k)
  }

  function Added(meta: Metadata, size: Pair -> Option<nat>, k: nat): seq<Member>
    requires k <= |Members(OptionalPairs(meta), size)|
  {
    Members(RequiredPairs(meta), size) + Members(OptionalPairs(meta), size)[k..] + if k > 0 then [MARKER] else []
  }

  predicate FitsLimits(bag: seq<Member>) {
    |bag| <= MAX_MEMBERS && EncodedLength(bag) <= MAX_BYTES
  }

  lemma {:induction false} DeleteAbsent(bag: seq<Member>, key: string)
    requires forall m <- bag :: m.key != key
    ensures DeleteMember(bag, key) == bag
  {
    if bag != [] {
      DeleteAbsent(bag[1..], key);
    }
  }

  lemma {:induction false} ForeignMeans(bag: seq<Member>)
    ensures forall m :: m in Foreign(bag) <==> m in bag && !Own(m.key)
  {
    if bag != [] {
      ForeignMeans(bag[1..]);
    }
  }

  lemma {:induction false} MemberKeys(pairs: seq<Pair>, size: Pair -> Option<nat>, m: Member)
    requires m in Members(pairs, size)
    ensures exists p <- pairs :: p.key == m.key
  {
    if m in Members(pairs[1..], size) {
      MemberKeys(pairs[1..], size, m);
    } else {
      assert pairs[0] in pairs;
    }
  }

  lemma {:induction false} MembersDistinct(pairs: seq<Pair>, size: Pair -> Option<nat>)
    requires forall i, j | 0 <= i < j < |pairs| :: pairs[i].key != pairs[j].key
    ensures IsBag(Members(pairs, size))
  {
    if pairs != [] {
      MembersDistinct(pairs[1..], size);
      forall m <- Members(pairs[1..], size) ensures m.key != pairs[0].key {
        MemberKeys(pairs[1..], size, m);
      }
    }
  }

  lemma {:induction false} MembersConcat(a: seq<Pair>, b: seq<Pair>, size: Pair -> Option<nat>)
    ensures Members(a + b, size) == Members(a, size) + Members(b, size)
  {
    if a == [] {
      assert a + b == b;
    } else {
      assert (a + b)[1..] == a[1..] + b;
      MembersConcat(a[1..], b, size);
    }
  }

  lemma PairsDistinct(m: Metadata)
    ensures var pairs := RequiredPairs(m) + OptionalPairs(m);
      forall i, j | 0 <= i < j < |pairs| :: pairs[i].key != pairs[j].key
    ensures forall p: Pair <- RequiredPairs(m) + OptionalPairs(m) :: Own(p.key) && p.key != TRUNCATED_KEY
  {
    var pairs := RequiredPairs(m) + OptionalPairs(m);
    assert pairs[2].key[19] != pairs[6].key[19];
    assert pairs[7].key[10] != TRUNCATED_KEY[10];
    assert |pairs| == 8;
    assert |pairs[0].key| == 16 && |pairs[1].key| == 18 && |pairs[2].key| == 24 && |pairs[3].key| == 20;
    assert |pairs[4].key| == 23 && |pairs[5].key| == 29 && |pairs[6].key| == 24 && |pairs[7].key| == 19;
  }

  /** What is added has scenarigo's own keys, each once. */
  lemma AddedIsBag(meta: Metadata, size: Pair -> Option<nat>, k: nat)
    requires k <= |Members(OptionalPairs(meta), size)|
    ensures IsBag(Added(meta, size, k)) && forall m <- Added(meta, size, k) :: Own(m.key)
  {
    var required, optional := Members(RequiredPairs(meta), size), Members(OptionalPairs(meta), size);
    var pairs := RequiredPairs(meta) + OptionalPairs(meta);
    PairsDistinct(meta);
    MembersDistinct(pairs, size);
    MembersConcat(RequiredPairs(meta), OptionalPairs(meta), size);
    forall m: Member <- required + optional ensures Own(m.key) && m.key != TRUNCATED_KEY {
      MemberKeys(pairs, size, m);
    }
    SuffixIsBag(required, optional, k);
  }

  /** The member with this key is there if and only if it is `kept` and its value is there and can be
      carried, and it has that value. */
  predicate Carries(members: seq<Member>, key: string, value: string, size: Pair -> Option<nat>, kept: bool) {
    && (forall m: Member <- members | m.key == key :: m.value == value && Some(m.size) == size(Pair(key, value)))
    && ((exists m: Member <- members :: m.key == key) <==> kept && value != "" && size(Pair(key, value)).Some?)
  }

  lemma {:induction false} MembersCarry(pairs: seq<Pair>, size: Pair -> Option<nat>, i: nat)
    requires i < |pairs| && forall j, k | 0 <= j < k < |pairs| :: pairs[j].key != pairs[k].key
    ensures Carries(Members(pairs, size), pairs[i].key, pairs[i].value, size, true)
  {
    var first, rest := Members([pairs[0]], size), Members(pairs[1..], size);
    assert [pairs[0]] + pairs[1..] == pairs;
    MembersConcat([pairs[0]], pairs[1..], size);
    if i == 0 {
      forall m <- rest ensures m.key != pairs[0].key {
        MemberKeys(pairs[1..], size, m);
      }
      OneCarries(pairs[0], size);
    } else {
      MembersCarry(pairs[1..], size, i - 1);
      forall m <- first ensures m.key != pairs[i].key {
        MemberKeys([pairs[0]], size, m);
      }
    }
    CarriesInEither(first, rest, pairs[i].key, pairs[i].value, size, i == 0, i > 0);
  }

  lemma OneCarries(p: Pair, size: Pair -> Option<nat>)
    ensures Carries(Members([p], size), p.key, p.value, size, true)
  {
    assert [p][1..] == [] && Members([], size) == [];
    assert Members([p], size) ==
      if p.value == "" || size(p).None? then [] else [Member(p.key, p.value, size(p).value)];
    assert p == Pair(p.key, p.value);
  }

  lemma CarriesInEither(a: seq<Member>, b: seq<Member>, key: string, value: string, size: Pair -> Option<nat>,
                        inA: bool, inB: bool)
    requires if inA then Carries(a, key, value, size, true) else forall m: Member <- a :: m.key != key
    requires if inB then Carries(b, key, value, size, true) else forall m: Member <- b :: m.key != key
    ensures Carries(a + b, key, value, size, inA || inB)
  {
    forall m: Member | m in a || m in b ensures m in a + b {
    }
  }

  lemma PairsApart(m: Metadata)
    ensures forall p <- RequiredPairs(m), q <- OptionalPairs(m) :: p.key != q.key
    ensures forall p <- RequiredPairs(m) :: p.key != TRUNCATED_KEY
    ensures forall q <- OptionalPairs(m) :: q.key != TRUNCATED_KEY
    ensures forall i, j | 0 <= i < j < 6 :: RequiredPairs(m)[i].key != RequiredPairs(m)[j].key
  {
    PairsDistinct(m);
    var required, optional := RequiredPairs(m), OptionalPairs(m);
    var pairs := required + optional;
    forall p <- required, q <- optional ensures p.key != q.key {
      var i :| 0 <= i < |required| && required[i] == p;
      var j :| 0 <= j < |optional| && optional[j] == q;
      assert pairs[i] == p && pairs[|required| + j] == q;
    }
    forall i, j | 0 <= i < j < 6 ensures required[i].key != required[j].key {
      assert pairs[i] == required[i] && pairs[j] == required[j];
    }
  }

  lemma RequiredCarried(meta: Metadata, size: Pair -> Option<nat>, k: nat, i: nat)
    requires i < 6 && k <= |Members(OptionalPairs(meta), size)|
    ensures var p := RequiredPairs(meta)[i]; Carries(Added(meta, size, k), p.key, p.value, size, true)
  {
    var required, optional := Members(RequiredPairs(meta), size), Members(OptionalPairs(meta), size);
    var p := RequiredPairs(meta)[i];
    PairsApart(meta);
    MembersCarry(RequiredPairs(meta), size, i);
    forall m <- optional[k..] ensures m.key != p.key {
      MemberKeys(OptionalPairs(meta), size, m);
    }
    CarriesInEither(required, optional[k..], p.key, p.value, size, true, false);
    CarriesInEither(required + optional[k..], if k > 0 then [MARKER] else [], p.key, p.value, size, true, false);
  }

  /** The members for the optional values that are left when `k` are dropped. */
  lemma OptionalLeft(meta: Metadata, size: Pair -> Option<nat>, k: nat)
    requires k <= |Members(OptionalPairs(meta), size)|
    ensures var left := Members(OptionalPairs(meta), size)[k..];
      && Carries(left, "scenarigo.scenario_title", meta.scenarioTitle, size, k == 0)
      && Carries(left, "scenarigo.step_name", meta.stepName, size, k < |Members(OptionalPairs(meta), size)|)
  {
    var title, name := OptionalPairs(meta)[0], OptionalPairs(meta)[1];
    var all := Members(OptionalPairs(meta), size);
    assert |title.key| == 24 && |name.key| == 19;
    assert [title] + [name] == OptionalPairs(meta);
    MembersConcat([title], [name], size);
    OneCarries(title, size);
    OneCarries(name, size);
    MembersCarry(OptionalPairs(meta), size, 0);
    MembersCarry(OptionalPairs(meta), size, 1);
    if k == 0 {
      assert all[0..] == all;
    } else if |all| == 2 && k == 1 {
      assert all[1..] == Members([name], size);
    } else {
      assert all[k..] == [];
    }
  }

  lemma OptionalCarried(meta: Metadata, size: Pair -> Option<nat>, k: nat)
    requires k <= |Members(OptionalPairs(meta), size)|
    ensures var added := Added(meta, size, k);
      && Carries(added, "scenarigo.scenario_title", meta.scenarioTitle, size, k == 0)
      && Carries(added, "scenarigo.step_name", meta.stepName, size, k < |Members(OptionalPairs(meta), size)|)
  {
    var required, left := Members(RequiredPairs(meta), size), Members(OptionalPairs(meta), size)[k..];
    var marker := if k > 0 then [MARKER] else [];
    PairsApart(meta);
    OptionalLeft(meta, size, k);
    forall q <- OptionalPairs(meta), m: Member <- required + marker ensures m.key != q.key {
      if m in required {
        MemberKeys(RequiredPairs(meta), size, m);
      }
    }
    assert OptionalPairs(meta)[0] in OptionalPairs(meta) && OptionalPairs(meta)[1] in OptionalPairs(meta);
    CarriesAmong(required, left, marker, "scenarigo.scenario_title", meta.scenarioTitle, size, k == 0);
    CarriesAmong(required, left, marker, "scenarigo.step_name", meta.stepName, size,
                 k < |Members(OptionalPairs(meta), size)|);
  }

  lemma CarriesAmong(a: seq<Member>, b: seq<Member>, c: seq<Member>, key: string, value: string,
                     size: Pair -> Option<nat>, kept: bool)
    requires Carries(b, key, value, size, kept) && forall m <- a + c :: m.key != key
    ensures Carries(a + b + c, key, value, size, kept)
  {
    forall m: Member | m in a || m in c ensures m.key != key {
      assert m in a + c;
    }
    forall m: Member | m in b ensures m in a + b + c {
    }
  }

  lemma MarkerCarried(meta: Metadata, size: Pair -> Option<nat>, k: nat)
    requires k <= |Members(OptionalPairs(meta), size)|
    ensures var added := Added(meta, size, k);
      && (forall m <- added | m.key == "scenarigo.truncated" :: m.value == "true")
      && ((exists m <- added :: m.key == "scenarigo.truncated") <==> k > 0)
  {
    var required, left := Members(RequiredPairs(meta), size), Members(OptionalPairs(meta), size)[k..];
    PairsApart(meta);
    forall m: Member <- required + left ensures m.key != "scenarigo.truncated" {
      if m in required {
        MemberKeys(RequiredPairs(meta), size, m);
      } else {
        MemberKeys(OptionalPairs(meta), size, m);
      }
    }
    if k > 0 {
      assert MARKER in required + left + [MARKER];
    }
  }

  /** What is added: each of the six required values under its key when it is there and can be carried;
      of the optional ones the title only when nothing was dropped, and the name of the step unless all
      were; and the marker exactly when something was. */
  lemma AddedValues(meta: Metadata, size: Pair -> Option<nat>, k: nat)
    requires k <= |Members(OptionalPairs(meta), size)|
    ensures var added := Added(meta, size, k);
      && Carries(added, "scenarigo.run_id", meta.runId, size, true)
      && Carries(added, "scenarigo.filepath", meta.filepath, size, true)
      && Carries(added, "scenarigo.scenario_index", meta.scenarioIndex, size, true)
      && Carries(added, "scenarigo.step_index", meta.stepIndex, size, true)
      && Carries(added, "scenarigo.root_filepath", meta.rootFilepath, size, true)
      && Carries(added, "scenarigo.root_scenario_index", meta.rootScenarioIndex, size, true)
      && Carries(added, "scenarigo.scenario_title", meta.scenarioTitle, size, k == 0)
      && Carries(added, "scenarigo.step_name", meta.stepName, size, k < |Members(OptionalPairs(meta), size)|)
      && (forall m <- added | m.key == "scenarigo.truncated" :: m.value == "true")
      && ((exists m <- added :: m.key == "scenarigo.truncated") <==> k > 0)
  {
    RequiredCarried(meta, size, k, 0);
    RequiredCarried(meta, size, k, 1);
    RequiredCarried(meta, size, k, 2);
    RequiredCarried(meta, size, k, 3);
    RequiredCarried(meta, size, k, 4);
    RequiredCarried(meta, size, k, 5);
    OptionalCarried(meta, size, k);
    MarkerCarried(meta, size, k);
  }

  lemma SuffixIsBag(required: seq<Member>, optional: seq<Member>, k: nat)
    requires IsBag(required + optional) && k <= |optional|
    requires forall m: Member <- required + optional :: Own(m.key) && m.key != TRUNCATED_KEY
    ensures var added := required + optional[k..] + if k > 0 then [MARKER] else [];
      IsBag(added) && forall m: Member <- added :: Own(m.key)
  {
    var all, some := required + optional, required + optional[k..];
    forall i | 0 <= i < |some| ensures some[i] in all && some[i] == all[if i < |required| then i else i + k] {
    }
  }

  /** Sets members whose keys are new, one after the other. */
  method SetMembers(bag: seq<Member>, members: seq<Member>) returns (merged: seq<Member>)
    requires IsBag(members) && forall m <- bag, n <- members :: m.key != n.key
    ensures merged == bag + members
  {
    merged := bag;
    for i := 0 to |members|
      invariant merged == bag + members[..i]
    {
      forall m <- merged ensures m.key != members[i].key {
        if m !in bag {
          assert m in members[..i];
        }
      }
      DeleteAbsent(merged, members[i].key);
      merged := SetMember(merged, members[i]);
    }
    assert members[..|members|] == members;
  }

  predicate WithinLimits(parts: seq<Part>) {
    RawLength(parts) <= MAX_BYTES && CountParts(parts) <= MAX_MEMBERS
  }

  /** Computes the header for a request. The old one stays when it is over the limits by itself, or
      would be with what is added. */
  method InjectBaggage(carrier: Carrier, meta: Metadata, size: Pair -> Option<nat>)
    returns (ghost bag: seq<Member>)
    modifies carrier
    ensures !WithinLimits(old(carrier.baggage)) ==> carrier.baggage == old(carrier.baggage)
    ensures RawLength(old(carrier.baggage)) <= 8192 && CountParts(old(carrier.baggage)) <= 64 ==>
      Merged(old(carrier.baggage), meta, size, bag) &&
      carrier.baggage == if FitsLimits(bag) then Header(bag) else old(carrier.baggage)
  {
    bag := [];
    var n := CountMembers(carrier.baggage);
    if RawLength(carrier.baggage) > MAX_BYTES || n > MAX_MEMBERS {
      return;
    }
    var required, optional := Members(RequiredPairs(meta), size), Members(OptionalPairs(meta), size);
    var members, truncated := FitMembers(required, optional);
    if truncated {
      members := members + [MARKER];
    }
    ghost var k :| 0 <= k <= |optional| && Dropped(required, optional, k) && members == Added(meta, size, k);
    AddedIsBag(meta, size, k);
    ForeignMeans(Parsed(carrier.baggage));
    var merged := SetMembers(Foreign(Parsed(carrier.baggage)), members);
    bag := merged;
    if |merged| > MAX_MEMBERS || EncodedLength(merged) > MAX_BYTES {
      return;
    }
    carrier.baggage := Header(merged);
  }

  lemma {:induction false} SizesFront(bag: seq<Member>)
    requires bag != []
    ensures Sizes(bag) == bag[0].size + Sizes(bag[1..])
  {
    if |bag| > 1 {
      SizesFront(bag[..|bag| - 1]);
      assert bag[..|bag| - 1][1..] == bag[1..][..|bag| - 2];
    } else {
      assert bag[..0] == bag[1..] == [];
    }
  }

  lemma {:induction false} CountConcat(a: seq<Part>, b: seq<Part>)
    ensures CountParts(a + b) == CountParts(a) + CountParts(b)
    decreases |b|
  {
    if b == [] {
      assert a + b == a;
    } else {
      assert (a + b)[..|a + b| - 1] == a + b[..|b| - 1];
      CountConcat(a, b[..|b| - 1]);
    }
  }

  /** The header of a bag is as long, and has as many members, as the bag. */
  lemma {:induction false} HeaderSize(bag: seq<Member>)
    ensures RawLength(Header(bag)) == EncodedLength(bag) && CountParts(Header(bag)) == |bag| == |Header(bag)|
  {
    if bag != [] {
      var first := [Valid(bag[0], bag[0].size)];
      HeaderSize(bag[1..]);
      SizesFront(bag);
      CountConcat(first, Header(bag[1..]));
      assert Header(bag)[1..] == Header(bag[1..]);
      assert first[..0] == [];
    }
  }

  lemma {:induction false} DeleteMeans(bag: seq<Member>, key: string)
    ensures forall m :: m in DeleteMember(bag, key) <==> m in bag && m.key != key
  {
    if bag != [] {
      DeleteMeans(bag[1..], key);
    }
  }

  /** The part holds this member, and no later one a member with the same key. */
  predicate LastOfKey(parts: seq<Part>, i: nat, m: Member) {
    && i < |parts| && parts[i].Valid? && parts[i].member == m
    && forall j | i < j < |parts| :: parts[j].Valid? ==> parts[j].member.key != m.key
  }

  /** Of several members with one key the last one is read; parts that are not members are not. */
  lemma {:induction false} ParsedMeans(parts: seq<Part>, m: Member)
    ensures m in Parsed(parts) <==> exists i :: LastOfKey(parts, i, m)
  {
    if parts != [] {
      var n := |parts| - 1;
      var before, p := parts[..n], parts[n];
      ParsedMeans(before, m);
      if p.Valid? {
        DeleteMeans(Parsed(before), p.member.key);
      }
      forall i: nat | i < n ensures LastOfKey(parts, i, m) <==>
        LastOfKey(before, i, m) && (p.Valid? ==> p.member.key != m.key)
      {
        assert parts[i] == before[i];
        assert forall j | i < j < n :: parts[j] == before[j];
      }
      assert LastOfKey(parts, n, m) <==> p.Valid? && p.member == m;
    }
  }

  /** A header that is replaced stays within the limits; it has every valid member of the user and,
      of scenarigo's own, only those of this request. */
  lemma MergedMeans(before: seq<Part>, meta: Metadata, size: Pair -> Option<nat>, bag: seq<Member>)
    requires Merged(before, meta, size, bag)
    ensures FitsLimits(bag) <==> RawLength(Header(bag)) <= 8192 && |Header(bag)| <= 64
    ensures forall m :: m in bag && !Own(m.key) <==> m in Parsed(before) && !Own(m.key)
    ensures exists k | 0 <= k <= |Members(OptionalPairs(meta), size)| ::
      Dropped(Members(RequiredPairs(meta), size), Members(OptionalPairs(meta), size), k) &&
      forall m :: m in bag && Own(m.key) <==> m in Added(meta, size, k)
  {
    HeaderSize(bag);
    ForeignMeans(Parsed(before));
    var k :| 0 <= k <= |Members(OptionalPairs(meta), size)| &&
      Dropped(Members(RequiredPairs(meta), size), Members(OptionalPairs(meta), size), k) &&
      bag == Foreign(Parsed(before)) + Added(meta, size, k);
    AddedIsBag(meta, size, k);
  }
}
