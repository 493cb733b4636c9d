/**
 * Conflict resolution between family members' edits (services/conflict.js): the field-level
 * three-way merge, the 32-bit rolling checksum, the role priorities and the choice of the
 * highest-priority user, and the dispatch from a strategy name to its resolver. The database
 * reads and writes around them are not modelled: their results are parameters.
 */
module Conflict {
  import opened Wrappers
  import opened Strings
  import opened Js
  import opened Lists

  // ---------------------------------------------------------------- three-way merge

  /** A document: field names to values. */
  type Doc = map<string, JsValue>

  /** `doc[key]`: a missing field reads as undefined. */
  function Get(d: Doc, k: string): JsValue {
    if k in d then d[k] else Undefined
  }

  /** `version[key] !== base[key]` for a key of `version`. */
  predicate Changed(version: Doc, base: Doc, k: string) {
    k in version && version[k] != Get(base, k)
  }

  /** The merge result: the base, with version1's changes, with version2's changes on top. */
  function Merged(base: Doc, v1: Doc, v2: Doc): Doc
  {
    map k | k in base.Keys + v1.Keys + v2.Keys && (k in base || Changed(v1, base, k) || Changed(v2, base, k)) ::
      if Changed(v2, base, k) then v2[k] else if Changed(v1, base, k) then v1[k] else base[k]
  }

  /**
   * The fields of the merge are those of the base and the changed ones; a field changed in
   * neither version keeps the base value, one changed only in version1 takes version1's value,
   * and one changed in version2 takes version2's, which therefore wins conflicting edits.
   */
  lemma MergedSpec(base: Doc, v1: Doc, v2: Doc, k: string)
    ensures var m := Merged(base, v1, v2);
      (k in m <==> k in base || Changed(v1, base, k) || Changed(v2, base, k))
      && (k in base && !Changed(v1, base, k) && !Changed(v2, base, k) ==> m[k] == base[k])
      && (Changed(v1, base, k) && !Changed(v2, base, k) ==> m[k] == v1[k])
      && (Changed(v2, base, k) ==> m[k] == v2[k])
  {
  }

  /** Merging two unchanged versions gives the base back, and a field one side deletes is kept. */
  lemma MergeKeepsBase(base: Doc, v1: Doc)
    ensures Merged(base, base, base) == base
    ensures Merged(base, v1, base).Keys >= base.Keys
  {
    assert Merged(base, base, base).Keys == base.Keys;
  }

  /** `performThreeWayMerge`: copies the base, then applies version1's and version2's changed fields. */
  method PerformThreeWayMerge(base: Doc, v1: Doc, v2: Doc) returns (merged: Doc)
    ensures merged == Merged(base, v1, v2)
  {
    var first := ApplyChanges(base, v1, base);
    merged := ApplyChanges(first, v2, base);
    ghost var m := Merged(base, v1, v2);
    forall k
      ensures k in merged <==> k in m
      ensures k in merged ==> merged[k] == m[k]
    {
      MergedSpec(base, v1, v2, k);
    }
  }

  /** One `forEach` of the merge: every field of `version` that differs from the base is copied into `into`. */
  method ApplyChanges(into: Doc, version: Doc, base: Doc) returns (merged: Doc)
    ensures forall k :: k in merged <==> k in into || Changed(version, base, k)
    ensures forall k :: k in merged ==> merged[k] == if Changed(version, base, k) then version[k] else into[k]
  {
    merged := into;
    var keys := version.Keys;
    while keys != {}
      invariant keys <= version.Keys
      invariant forall k :: k in merged <==> k in into || (Changed(version, base, k) && k !in keys)
      invariant forall k :: k in merged ==> merged[k] == (if Changed(version, base, k) && k !in keys then version[k] else into[k])
      decreases keys
    {
      var k :| k in keys;
      if version[k] != Get(base, k) {
        merged := merged[k := version[k]];
      }
      keys := keys - {k};
    }
  }

  // ---------------------------------------------------------------- checksum

  /** A UTF-16 code unit, as `charCodeAt` returns it. */
  type CodeUnit = u: int | 0 <= u < 0x1_0000

  const TwoTo32 := 0x1_0000_0000
  const TwoTo31 := 0x8000_0000

  /** JavaScript's ToInt32: wrap into -2^31 .. 2^31 - 1. */
  function ToInt32(x: int): (r: int)
    ensures -TwoTo31 <= r < TwoTo31
  {
    var m := x % TwoTo32;
    if m >= TwoTo31 then m - TwoTo32 else m
  }

  /** One step of the loop: `((hash << 5) - hash) + char`, then `hash & hash`. */
  function Step(hash: int, c: CodeUnit): int
  {
    ToInt32(ToInt32(hash * 32) - hash + c)
  }

  /** The hash after the loop has consumed `s`. */
  function Hash(s: seq<CodeUnit>): (h: int)
    ensures -TwoTo31 <= h < TwoTo31
  {
    if |s| == 0 then 0 else Step(Hash(s[..|s| - 1]), s[|s| - 1])
  }

  /** The polynomial the loop evaluates, without wrap-around: the sum of c_i * 31^(n-1-i). */
  function Poly(s: seq<CodeUnit>): int
  {
    if |s| == 0 then 0 else 31 * Poly(s[..|s| - 1]) + s[|s| - 1]
  }

  /** ToInt32 takes away a multiple of 2^32. */
  lemma ToInt32Offset(x: int)
    ensures ToInt32(x) == x - TwoTo32 * ((x + TwoTo31) / TwoTo32)
  {
  }

  /** ToInt32 does not see multiples of 2^32. */
  lemma ToInt32Shift(x: int, k: int)
    ensures ToInt32(x - TwoTo32 * k) == ToInt32(x)
  {
  }

  /** The 32-bit steps compute 31 * hash + c modulo 2^32. */
  lemma StepIsPoly(p: int, c: CodeUnit)
    ensures Step(ToInt32(p), c) == ToInt32(31 * p + c)
  {
    var h := ToInt32(p);
    var a := (p + TwoTo31) / TwoTo32;
    ToInt32Offset(p);
    var b := (h * 32 + TwoTo31) / TwoTo32;
    ToInt32Offset(h * 32);
    assert ToInt32(h * 32) - h + c == 31 * p + c - TwoTo32 * (31 * a + b);
    ToInt32Shift(31 * p + c, 31 * a + b);
  }

  /** The checksum is the polynomial hash of the code units wrapped to a signed 32-bit integer. */
  lemma {:induction false} HashIsPoly(s: seq<CodeUnit>)
    ensures Hash(s) == ToInt32(Poly(s))
  {
    if |s| > 0 {
      HashIsPoly(s[..|s| - 1]);
      StepIsPoly(Poly(s[..|s| - 1]), s[|s| - 1]);
    }
  }

  /** Numbers closer than 2^32 wrap to different 32-bit values. */
  lemma ToInt32Injective(x: int, y: int)
    requires x != y && -TwoTo32 < x - y < TwoTo32
    ensures ToInt32(x) != ToInt32(y)
  {
    ToInt32Offset(x);
    ToInt32Offset(y);
  }

  /** Two strings that differ only in their last code unit have different checksums. */
  lemma LastUnitChangesHash(s: seq<CodeUnit>, c: CodeUnit, d: CodeUnit)
    requires c != d
    ensures Hash(s + [c]) != Hash(s + [d])
  {
    assert (s + [c])[..|s|] == s && (s + [d])[..|s|] == s;
    HashIsPoly(s + [c]);
    HashIsPoly(s + [d]);
    ToInt32Injective(31 * Poly(s) + c, 31 * Poly(s) + d);
  }

  /** `hash.toString(16)`: a minus sign and the hex digits of the magnitude for a negative hash. */
  function Hex(h: int): (r: string)
    ensures |r| >= 1
  {
    if h < 0 then "-" + NatToHex(-h) else NatToHex(h)
  }

  /** `calculateChecksum` over the code units of the JSON text. */
  method CalculateChecksum(str: seq<CodeUnit>) returns (r: string)
    ensures r == Hex(Hash(str))
    ensures r == Hex(ToInt32(Poly(str)))
  {
    var hash := 0;
    var i := 0;
    while i < |str|
      invariant 0 <= i <= |str|
      invariant hash == Hash(str[..i])
    {
      assert str[..i + 1][..i] == str[..i];
      hash := ToInt32(ToInt32(hash * 32) - hash + str[i]);
      i := i + 1;
    }
    assert str[..|str|] == str;
    HashIsPoly(str);
    r := Hex(hash);
  }

  // ---------------------------------------------------------------- priorities

  datatype Member = Member(userId: Option<string>, role: string)

  /** A user's role and priority; an unknown role has no priority (undefined). */
  datatype UserPriority = UserPriority(userId: string, role: string, priority: Option<int>)

  /** The `priorities` table. */
  function RolePriority(role: string): (p: Option<int>)
    ensures p.Some? <==> role in {"owner", "admin", "member", "viewer"}
  {
    if role == "owner" then Some(100)
    else if role == "admin" then Some(80)
    else if role == "member" then Some(60)
    else if role == "viewer" then Some(40)
    else None
  }

  function PriorityOf(userId: string, members: seq<Member>): UserPriority
  {
    match FindFirst(members, (m: Member) => m.userId == Some(userId))
    case Some(i) => UserPriority(userId, members[i].role, RolePriority(members[i].role))
    case None => UserPriority(userId, "member", Some(60))
  }

  /**
   * `getUserPriorities`: each user gets the role of the first family member with that id and
   * the table's priority for it, 'member' and 60 when there is none; when the member list cannot
   * be read (None) everyone is 'member' with 60.
   */
  function GetUserPriorities(userIds: seq<string>, members: Option<seq<Member>>): (r: seq<UserPriority>)
    ensures |r| == |userIds|
    ensures forall i :: 0 <= i < |r| ==> r[i].userId == userIds[i]
    ensures members.None? ==> forall i :: 0 <= i < |r| ==> r[i].role == "member" && r[i].priority == Some(60)
  {
    seq(|userIds|, i requires 0 <= i < |userIds| =>
      if members.None? then UserPriority(userIds[i], "member", Some(60)) else PriorityOf(userIds[i], members.value))
  }

  /** The priority of a user who is a member is the table's value for the first match's role. */
  lemma UserPriorityOfMember(userIds: seq<string>, members: seq<Member>, i: nat, j: nat)
    requires i < |userIds| && j < |members| && members[j].userId == Some(userIds[i])
    requires forall k :: 0 <= k < j ==> members[k].userId != Some(userIds[i])
    ensures var p := GetUserPriorities(userIds, Some(members))[i];
      p.role == members[j].role && p.priority == RolePriority(members[j].role)
  {
  }

  /** A user who is not a member counts as 'member' with priority 60. */
  lemma UserPriorityOfStranger(userIds: seq<string>, members: seq<Member>, i: nat)
    requires i < |userIds| && forall k :: 0 <= k < |members| ==> members[k].userId != Some(userIds[i])
    ensures GetUserPriorities(userIds, Some(members))[i] == UserPriority(userIds[i], "member", Some(60))
  {
  }

  /** `prev.priority > current.priority`: a comparison with undefined is false. */
  predicate Greater(a: Option<int>, b: Option<int>) {
    a.Some? && b.Some? && a.value > b.value
  }

  /** `reduce((prev, current) => prev.priority > current.priority ? prev : current)`, as an index. */
  function HighestIndex(ps: seq<UserPriority>): (i: nat)
    requires |ps| > 0
    ensures i < |ps|
  {
    if |ps| == 1 then 0
    else
      var prev := HighestIndex(ps[..|ps| - 1]);
      if Greater(ps[prev].priority, ps[|ps| - 1].priority) then prev else |ps| - 1
  }

  predicate AllKnown(ps: seq<UserPriority>) {
    forall j :: 0 <= j < |ps| ==> ps[j].priority.Some?
  }

  /**
   * With every priority known, the chosen user has the highest priority, and on a tie the last
   * of the users with it is chosen.
   */
  lemma {:induction false} HighestIsLastMaximum(ps: seq<UserPriority>)
    requires |ps| > 0 && AllKnown(ps)
    ensures var i := HighestIndex(ps);
      (forall j :: 0 <= j < |ps| ==> ps[j].priority.value <= ps[i].priority.value)
      && (forall j :: i < j < |ps| ==> ps[j].priority.value < ps[i].priority.value)
  {
    if |ps| > 1 {
      var init := ps[..|ps| - 1];
      HighestIsLastMaximum(init);
      assert forall j :: 0 <= j < |init| ==> init[j] == ps[j];
    }
  }

  // ---------------------------------------------------------------- strategy dispatch

  /** The resolvers a strategy name can reach. */
  datatype Resolver =
    | LastWriteWins
    | MergeChanges
    | ManualResolve
    | PriorityBased
    /** A method every object inherits, reached through the prototype of the strategy table. */
    | Inherited(name: string)

  /** The own keys of the `resolutionStrategies` table. */
  function OwnStrategy(name: string): Option<Resolver>
  {
    if name == "last_write_wins" then Some(LastWriteWins)
    else if name == "merge" then Some(MergeChanges)
    else if name == "manual" then Some(ManualResolve)
    else if name == "priority_based" then Some(PriorityBased)
    else None
  }

  /** The methods of `Object.prototype`, which `table[name]` finds when the table has no such key. */
  const PrototypeMethods: set<string> := {
    "constructor", "hasOwnProperty", "isPrototypeOf", "propertyIsEnumerable", "toLocaleString",
    "toString", "valueOf", "__defineGetter__", "__defineSetter__", "__lookupGetter__", "__lookupSetter__"
  }

  /** Of those, the ones that return instead of throwing when called without a receiver. */
  const CallableWithoutReceiver: set<string> := {"constructor", "toString"}

  /** `this.resolutionStrategies[strategy]` as written: own keys first, then the prototype. */
  function LookupStrategy(name: string): Option<Resolver>
  {
    if OwnStrategy(name).Some? then OwnStrategy(name)
    else if name in PrototypeMethods then Some(Inherited(name))
    else None
  }

  /** The outcome of `resolveConflict`, short of the resolvers' own database work. */
  datatype Resolution =
    | CollectionMissing
    | Thrown(reason: string)
    /** The resolver returned, so the conflict record is marked resolved with its result. */
    | MarkedResolved(resolver: Resolver)

  /**
   * `resolveConflict`: without the conflict collection it reports `collection_missing`; a missing
   * conflict and an unsupported strategy throw; otherwise the resolver runs and the conflict is
   * marked resolved.
   */
  function ResolveConflict(collectionPresent: bool, conflictFound: bool, strategy: string): (r: Resolution)
    ensures !collectionPresent ==> r == CollectionMissing
    ensures collectionPresent && !conflictFound ==> r.Thrown?
    ensures collectionPresent && conflictFound && OwnStrategy(strategy).Some? ==>
      r == MarkedResolved(OwnStrategy(strategy).value)
  {
    if !collectionPresent then CollectionMissing
    else if !conflictFound then Thrown("冲突记录不存在")
    else match LookupStrategy(strategy)
      case None => Thrown("不支持的解决策略: " + strategy)
      case Some(Inherited(name)) =>
        if name in CallableWithoutReceiver then MarkedResolved(Inherited(name)) else Thrown("TypeError")
      case Some(resolver) => MarkedResolved(resolver)
  }

  /** A name that is neither a strategy nor inherited by every object is refused. */
  lemma UnknownStrategyThrows(strategy: string)
    requires OwnStrategy(strategy).None? && strategy !in PrototypeMethods
    ensures ResolveConflict(true, true, strategy).Thrown?
  {
  }

  /**
   * As written, the name "toString" is not refused: the inherited method runs, returns
   * "[object Undefined]", and the conflict is marked resolved without any data being applied.
   */
  lemma InheritedStrategyMarksResolved()
    ensures OwnStrategy("toString").None?
    ensures ResolveConflict(true, true, "toString") == MarkedResolved(Inherited("toString"))
  {
  }

  /** The intended dispatch: only the table's own keys name a strategy. */
  function ResolveConflictFixed(collectionPresent: bool, conflictFound: bool, strategy: string): Resolution
  {
    if !collectionPresent then CollectionMissing
    else if !conflictFound then Thrown("冲突记录不存在")
    else match OwnStrategy(strategy)
      case None => Thrown("不支持的解决策略: " + strategy)
      case Some(resolver) => MarkedResolved(resolver)
  }

  /**
   * With the fix, a conflict is marked resolved exactly for the four strategy names, and every
   * other name throws; on those four names it agrees with the source.
   */
  lemma ResolveConflictFixedSpec(strategy: string)
    ensures ResolveConflictFixed(true, true, strategy).MarkedResolved?
      <==> strategy in {"last_write_wins", "merge", "manual", "priority_based"}
    ensures ResolveConflictFixed(true, true, strategy).MarkedResolved? ==>
      ResolveConflictFixed(true, true, strategy) == ResolveConflict(true, true, strategy)
    ensures ResolveConflictFixed(true, true, strategy).MarkedResolved? ==>
      !ResolveConflictFixed(true, true, strategy).resolver.Inherited?
  {
  }
}
