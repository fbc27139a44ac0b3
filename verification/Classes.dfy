/** QuickBooks classes: inferring missing parents from names, and the classes of a sales rep. */
module Classes {
  import opened Wrappers
  import opened Texts
  import opened Reps

  datatype Class = Class(id: string, name: string, fqn: string, parent: Option<string>)

  function Key(name: string): string { Lower(Trim(name)) }

  /** Index of the last `':'`. */
  function LastColon(s: string): (r: Option<nat>)
    ensures r.Some? ==> r.value < |s| && s[r.value] == ':'
    ensures r.None? ==> ':' !in s
  {
    if s == "" then None
    else if s[|s| - 1] == ':' then Some(|s| - 1)
    else LastColon(s[..|s| - 1])
  }

  /** Class ids by normalised qualified name; of equal names the last class counts. */
  function IdsByName(classes: seq<Class>): map<string, string> {
    if classes == [] then map[]
    else
      var last := classes[|classes| - 1];
      IdsByName(classes[..|classes| - 1])[Key(last.fqn) := last.id]
  }

  function WithParent(c: Class, byName: map<string, string>): Class {
    var colon := LastColon(c.fqn);
    if c.parent.Some? || colon.None? || colon.value == 0 then c
    else
      var parent := Key(c.fqn[..colon.value]);
      if parent in byName && byName[parent] != c.id then c.(parent := Some(byName[parent])) else c
  }

  function WithParents(classes: seq<Class>, byName: map<string, string>): (r: seq<Class>)
    ensures |r| == |classes| && forall i | 0 <= i < |r| :: r[i] == WithParent(classes[i], byName)
  {
    if classes == [] then [] else [WithParent(classes[0], byName)] + WithParents(classes[1..], byName)
  }

  function ResolveParents(classes: seq<Class>): (r: seq<Class>)
    ensures |r| == |classes|
  {
    WithParents(classes, IdsByName(classes))
  }

  /** Names are keys without regard to case and the white space around them. */
  lemma KeyIff(name: string, other: string)
    ensures Key(name) == Key(other) <==> SameName(name, other)
  {
    SameNameIff(name, other);
  }

  // ---- what resolving keeps ----

  lemma {:induction false} SameNamesSameIds(a: seq<Class>, b: seq<Class>)
    requires |a| == |b| && forall i | 0 <= i < |a| :: a[i].id == b[i].id && a[i].fqn == b[i].fqn
    ensures IdsByName(a) == IdsByName(b)
    decreases |a|
  {
    if a == [] {
    } else {
      SameNamesSameIds(a[..|a| - 1], b[..|b| - 1]);
    }
  }

  /** Resolving changes nothing but missing parents, and resolving again changes nothing. */
  lemma ResolveTwice(classes: seq<Class>)
    ensures ResolveParents(ResolveParents(classes)) == ResolveParents(classes)
    ensures forall i | 0 <= i < |classes| ::
              var r := ResolveParents(classes)[i];
              r == classes[i].(parent := r.parent) && (classes[i].parent.Some? ==> r == classes[i])
  {
    var once := ResolveParents(classes);
    SameNamesSameIds(once, classes);
    var twice := ResolveParents(once);
    assert forall i | 0 <= i < |once| :: twice[i] == once[i];
  }

  // ---- inferred parents have shorter names ----

  lemma {:induction false} TrimStartPrefix(p: string, q: string)
    requires q != "" && !IsSpace(q[0])
    ensures TrimStart(p + q) == TrimStart(p) + q
    decreases |p|
  {
    if p == "" {
      assert p + q == q;
    } else if !IsSpace(p[0]) {
    } else {
      TrimStartPrefix(p[1..], q);
      assert (p + q)[1..] == p[1..] + q;
    }
  }

  lemma {:induction false} TrimEndKeeps(s: string, i: nat)
    requires i < |s| && !IsSpace(s[i])
    ensures |TrimEnd(s)| > i
    decreases |s|
  {
    if !IsSpace(s[|s| - 1]) {
    } else {
      TrimEndKeeps(s[..|s| - 1], i);
    }
  }

  lemma {:induction false} TrimEndShortens(s: string)
    ensures |TrimEnd(s)| <= |s|
    decreases |s|
  {
    if s == "" || !IsSpace(s[|s| - 1]) {
    } else {
      TrimEndShortens(s[..|s| - 1]);
    }
  }

  lemma PrefixKeyIsShorter(s: string, k: nat)
    requires k < |s| && s[k] == ':'
    ensures |Key(s[..k])| < |Key(s)|
  {
    var p, q := s[..k], s[k..];
    assert s == p + q;
    TrimStartPrefix(p, q);
    TrimEndKeeps(TrimStart(p) + q, |TrimStart(p)|);
    TrimEndShortens(TrimStart(p));
  }

  lemma {:induction false} NamedIdIsThere(classes: seq<Class>, key: string)
    requires key in IdsByName(classes)
    ensures exists i :: 0 <= i < |classes| && classes[i].id == IdsByName(classes)[key] && Key(classes[i].fqn) == key
    decreases |classes|
  {
    var n := |classes| - 1;
    if Key(classes[n].fqn) == key {
    } else {
      NamedIdIsThere(classes[..n], key);
    }
  }

  /** An inferred parent is another class of the list, whose normalised name is strictly shorter. */
  lemma InferredParentIsShorter(classes: seq<Class>, i: nat)
    requires i < |classes| && classes[i].parent.None? && ResolveParents(classes)[i].parent.Some?
    ensures exists j :: 0 <= j < |classes| && ResolveParents(classes)[i].parent == Some(classes[j].id)
                        && classes[j].id != classes[i].id && |Key(classes[j].fqn)| < |Key(classes[i].fqn)|
  {
    var c := classes[i];
    var k := LastColon(c.fqn).value;
    PrefixKeyIsShorter(c.fqn, k);
    NamedIdIsThere(classes, Key(c.fqn[..k]));
  }

  /** The last class of the list with a given normalised name. */
  predicate IsLastNamed(classes: seq<Class>, j: nat, key: string) {
    j < |classes| && Key(classes[j].fqn) == key && forall m | j < m < |classes| :: Key(classes[m].fqn) != key
  }

  lemma {:induction false} LastNamedCounts(classes: seq<Class>, j: nat, key: string)
    requires IsLastNamed(classes, j, key)
    ensures key in IdsByName(classes) && IdsByName(classes)[key] == classes[j].id
    decreases |classes|
  {
    hide Key;
    var n := |classes| - 1;
    if j == n {
    } else {
      assert Key(classes[n].fqn) != key;
      LastNamedCounts(classes[..n], j, key);
    }
  }

  lemma {:induction false} LastColonIs(s: string, k: nat)
    requires k < |s| && s[k] == ':' && ':' !in s[k + 1..]
    ensures LastColon(s) == Some(k)
    decreases |s|
  {
    var n := |s| - 1;
    if k == n {
    } else {
      assert s[n] in s[k + 1..];
      assert s[..n][k + 1..] == s[k + 1..][..n - k - 1];
      LastColonIs(s[..n], k);
    }
  }

  /** The last class of the list of that name, without regard to case and the white space around it. */
  ghost predicate IsLastCalled(classes: seq<Class>, j: nat, name: string) {
    j < |classes| && SameName(classes[j].fqn, name) && forall m | j < m < |classes| :: !SameName(classes[m].fqn, name)
  }

  lemma LastCalledIff(classes: seq<Class>, j: nat, name: string)
    ensures IsLastCalled(classes, j, name) <==> IsLastNamed(classes, j, Key(name))
  {
    hide Key, SameName;
    forall m | 0 <= m < |classes| ensures Key(classes[m].fqn) == Key(name) <==> SameName(classes[m].fqn, name) {
      KeyIff(classes[m].fqn, name);
    }
  }

  /** A missing parent becomes the last class named like the part before the last colon, but never the class itself. */
  lemma ParentIsInferred(classes: seq<Class>, i: nat, k: nat, j: nat)
    requires i < |classes| && classes[i].parent.None?
    requires 0 < k < |classes[i].fqn| && classes[i].fqn[k] == ':' && ':' !in classes[i].fqn[k + 1..]
    requires IsLastCalled(classes, j, classes[i].fqn[..k])
    ensures ResolveParents(classes)[i].parent == if classes[j].id != classes[i].id then Some(classes[j].id) else None
  {
    LastColonIs(classes[i].fqn, k);
    LastCalledIff(classes, j, classes[i].fqn[..k]);
    hide Key, LastColon;
    LastNamedCounts(classes, j, Key(classes[i].fqn[..k]));
  }

  /** And there is no other way to get one. */
  lemma InferredParentIsNamed(classes: seq<Class>, i: nat)
    requires i < |classes| && classes[i].parent.None? && ResolveParents(classes)[i].parent.Some?
    ensures var fqn := classes[i].fqn;
            exists k, j :: 0 < k < |fqn| && fqn[k] == ':' && 0 <= j < |classes| && SameName(classes[j].fqn, fqn[..k])
                           && ResolveParents(classes)[i].parent == Some(classes[j].id)
  {
    var c := classes[i];
    var k := LastColon(c.fqn).value;
    NamedIdIsThere(classes, Key(c.fqn[..k]));
    hide Key, SameName;
    var j :| 0 <= j < |classes| && classes[j].id == IdsByName(classes)[Key(c.fqn[..k])]
             && Key(classes[j].fqn) == Key(c.fqn[..k]);
    KeyIff(classes[j].fqn, c.fqn[..k]);
  }

  // ---- the classes of a rep ----

  function Leaf(fqn: string): string {
    var colon := LastColon(fqn);
    if colon.Some? then fqn[colon.value + 1..] else fqn
  }

  predicate IsDirect(c: Class, rep: string) {
    MatchesRep(c.name, rep) || MatchesRep(c.fqn, rep) || MatchesRep(Leaf(c.fqn), rep)
  }

  /** What is behind the last colon, or the whole name when it has none. */
  ghost predicate IsLeafOf(fqn: string, leaf: string) {
    ':' !in leaf && (fqn == leaf || exists path :: fqn == path + ":" + leaf)
  }

  lemma LeafIff(fqn: string, leaf: string)
    ensures Leaf(fqn) == leaf <==> IsLeafOf(fqn, leaf)
  {
    var colon := LastColon(fqn);
    if colon.Some? {
      NoColonBehind(fqn);
      assert fqn == fqn[..colon.value] + ":" + fqn[colon.value + 1..];
      if fqn != leaf && IsLeafOf(fqn, leaf) {
        var path :| fqn == path + ":" + leaf;
        assert fqn[|path|] == ':' && fqn[|path| + 1..] == leaf;
        LastColonIs(fqn, |path|);
      }
    }
  }

  lemma {:induction false} NoColonBehind(s: string)
    ensures LastColon(s).Some? ==> ':' !in s[LastColon(s).value + 1..]
    decreases |s|
  {
    if s == "" || s[|s| - 1] == ':' {
    } else {
      NoColonBehind(s[..|s| - 1]);
      if LastColon(s).Some? {
        var k := LastColon(s).value;
        assert s[k + 1..] == s[..|s| - 1][k + 1..] + [s[|s| - 1]];
      }
    }
  }

  /** A class matches a rep itself by its name, by its qualified name, or by the last part of that. */
  lemma DirectIff(c: Class, rep: string)
    ensures IsDirect(c, rep) <==>
            || MatchesRep(c.name, rep) || MatchesRep(c.fqn, rep)
            || exists leaf :: IsLeafOf(c.fqn, leaf) && MatchesRep(leaf, rep)
  {
    hide MatchesRep, IsLeafOf;
    LeafIff(c.fqn, Leaf(c.fqn));
    if leaf :| IsLeafOf(c.fqn, leaf) && MatchesRep(leaf, rep) {
      LeafIff(c.fqn, leaf);
    }
  }

  function DirectIds(classes: seq<Class>, rep: string): seq<string> {
    if classes == [] then []
    else (if IsDirect(classes[0], rep) then [classes[0].id] else []) + DirectIds(classes[1..], rep)
  }

  predicate IsNewChild(c: Class, matched: seq<string>) {
    c.parent.Some? && c.parent.value in matched && c.id !in matched
  }

  function ChildIds(classes: seq<Class>, matched: seq<string>): seq<string> {
    if classes == [] then []
    else (if IsNewChild(classes[0], matched) then [classes[0].id] else []) + ChildIds(classes[1..], matched)
  }

  ghost predicate IsClosed(ids: set<string>, classes: seq<Class>) {
    forall c | c in classes && c.parent.Some? && c.parent.value in ids :: c.id in ids
  }

  ghost predicate HasDirect(ids: set<string>, classes: seq<Class>, rep: string) {
    forall c | c in classes && IsDirect(c, rep) :: c.id in ids
  }

  ghost function Elements(xs: seq<string>): set<string> { set x | x in xs }

  /** The least set of ids with the rep's own classes that is closed under taking children. */
  ghost predicate IsLeast(ids: set<string>, classes: seq<Class>, rep: string) {
    && HasDirect(ids, classes, rep) && IsClosed(ids, classes)
    && forall other: set<string> | HasDirect(other, classes, rep) && IsClosed(other, classes) :: ids <= other
  }

  ghost predicate NoDuplicates(xs: seq<string>) { forall i, j | 0 <= i < j < |xs| :: xs[i] != xs[j] }

  ghost predicate UniqueIds(classes: seq<Class>) {
    forall i, j | 0 <= i < j < |classes| :: classes[i].id != classes[j].id
  }

  lemma FirstIdIsNotLater(classes: seq<Class>)
    requires classes != [] && UniqueIds(classes)
    ensures UniqueIds(classes[1..]) && forall c | c in classes[1..] :: c.id != classes[0].id
  {
    forall c | c in classes[1..] ensures c.id != classes[0].id {
      var i :| 0 <= i < |classes[1..]| && classes[1..][i] == c;
      assert classes[i + 1] == c;
    }
  }

  lemma OneMoreId(id: string, ids: seq<string>)
    requires NoDuplicates(ids) && id !in ids
    ensures NoDuplicates([id] + ids)
  {
    assert forall i | 0 <= i < |ids| :: ids[i] in ids;
  }

  lemma {:induction false} DirectIdsAre(classes: seq<Class>, rep: string)
    ensures forall id :: id in DirectIds(classes, rep) <==> exists c :: c in classes && IsDirect(c, rep) && c.id == id
    ensures UniqueIds(classes) ==> NoDuplicates(DirectIds(classes, rep))
    decreases |classes|
  {
    hide IsDirect;
    if classes == [] {
    } else {
      DirectIdsAre(classes[1..], rep);
      if UniqueIds(classes) {
        FirstIdIsNotLater(classes);
        OneMoreId(classes[0].id, DirectIds(classes[1..], rep));
      }
      assert forall c :: c in classes <==> c == classes[0] || c in classes[1..];
    }
  }

  lemma {:induction false} ChildIdsAre(classes: seq<Class>, matched: seq<string>)
    ensures forall id :: id in ChildIds(classes, matched) <==>
                         exists c :: c in classes && IsNewChild(c, matched) && c.id == id
    ensures UniqueIds(classes) ==> NoDuplicates(ChildIds(classes, matched))
    decreases |classes|
  {
    hide IsNewChild;
    if classes == [] {
    } else {
      ChildIdsAre(classes[1..], matched);
      if UniqueIds(classes) {
        FirstIdIsNotLater(classes);
        OneMoreId(classes[0].id, ChildIds(classes[1..], matched));
      }
      assert forall c :: c in classes <==> c == classes[0] || c in classes[1..];
    }
  }

  lemma {:induction false} DirectIdsInOrder(before: seq<Class>, c: Class, after: seq<Class>, rep: string)
    ensures DirectIds(before + [c] + after, rep)
         == DirectIds(before, rep) + (if IsDirect(c, rep) then [c.id] else []) + DirectIds(after, rep)
    decreases |before|
  {
    hide IsDirect;
    var all := before + [c] + after;
    if before == [] {
      assert all[0] == c && all[1..] == after;
    } else {
      assert all[0] == before[0] && all[1..] == before[1..] + [c] + after;
      DirectIdsInOrder(before[1..], c, after, rep);
    }
  }

  /** The matches themselves come first, in the order of the list, and then every class behind a parent of it. */
  ghost predicate ParentsFirst(matched: seq<string>, classes: seq<Class>, rep: string) {
    var direct := DirectIds(classes, rep);
    direct <= matched && forall i | |direct| <= i < |matched| :: HasParentBefore(matched, classes, i)
  }

  ghost predicate HasParentBefore(matched: seq<string>, classes: seq<Class>, i: nat)
    requires i < |matched|
  {
    exists c | c in classes && c.id == matched[i] :: c.parent.Some? && c.parent.value in matched[..i]
  }

  lemma ParentsStayFirst(matched: seq<string>, classes: seq<Class>, rep: string)
    requires ParentsFirst(matched, classes, rep)
    ensures ParentsFirst(matched + ChildIds(classes, matched), classes, rep)
  {
    hide DirectIds, ChildIds;
    ChildIdsAre(classes, matched);
    var children := ChildIds(classes, matched);
    var more := matched + children;
    forall i | |DirectIds(classes, rep)| <= i < |more| ensures HasParentBefore(more, classes, i) {
      if i < |matched| {
        assert HasParentBefore(matched, classes, i) && more[..i] == matched[..i];
      } else {
        assert more[i] == children[i - |matched|] && more[i] in children;
        var c :| c in classes && IsNewChild(c, matched) && c.id == more[i];
        assert matched <= more[..i];
      }
    }
  }

  /** What the loop knows about `matched`, whatever the parent graph looks like. */
  ghost predicate Growing(matched: seq<string>, classes: seq<Class>, rep: string) {
    && (forall id | id in matched :: exists c :: c in classes && c.id == id)
    && HasDirect(Elements(matched), classes, rep)
    && (forall other: set<string> | HasDirect(other, classes, rep) && IsClosed(other, classes) ::
          Elements(matched) <= other)
    && (UniqueIds(classes) ==> NoDuplicates(matched))
  }

  lemma GrowingGrows(matched: seq<string>, classes: seq<Class>, rep: string)
    requires Growing(matched, classes, rep)
    ensures Growing(matched + ChildIds(classes, matched), classes, rep)
    ensures ChildIds(classes, matched) == [] ==> IsLeast(Elements(matched), classes, rep)
  {
    ChildIdsAre(classes, matched);
    hide IsDirect;
    var children := ChildIds(classes, matched);
    var more := matched + children;
    assert Elements(more) == Elements(matched) + Elements(children);
    forall other: set<string> | HasDirect(other, classes, rep) && IsClosed(other, classes)
      ensures Elements(more) <= other
    {
      assert forall id | id in children :: id in other;
    }
    assert forall id | id in children :: id !in matched;
    if UniqueIds(classes) {
      assert forall i, j | 0 <= i < |matched| && 0 <= j < |children| :: matched[i] in matched && children[j] in children;
    }
    if children == [] {
      assert forall c | c in classes :: IsNewChild(c, matched) ==> c.id in children;
    }
  }

  /** Each round of the loop uses up ids. */
  lemma FewerLeft(all: set<string>, matched: seq<string>, children: seq<string>)
    requires children != [] && children[0] in all && children[0] !in matched
    ensures |all - Elements(matched + children)| < |all - Elements(matched)|
  {
    assert children[0] in children && children[0] in matched + children;
    assert all - Elements(matched + children) <= all - Elements(matched);
    assert children[0] in all - Elements(matched) && children[0] !in all - Elements(matched + children);
    SmallerSet(all - Elements(matched + children), all - Elements(matched));
  }

  lemma FirstChild(classes: seq<Class>, matched: seq<string>)
    requires ChildIds(classes, matched) != []
    ensures ChildIds(classes, matched)[0] in (set c | c in classes :: c.id) && ChildIds(classes, matched)[0] !in matched
  {
    ChildIdsAre(classes, matched);
    hide ChildIds;
    assert ChildIds(classes, matched)[0] in ChildIds(classes, matched);
  }

  /** The source's loop: it ends for every parent graph, cycles included. */
  method ClassIdsForRep(classes: seq<Class>, rep: string) returns (matched: seq<string>)
    ensures AllBlank(rep) ==> matched == []
    ensures !AllBlank(rep) ==> IsLeast(Elements(matched), classes, rep) && ParentsFirst(matched, classes, rep)
    ensures UniqueIds(classes) ==> NoDuplicates(matched)
  {
    BlankIff(rep);
    if Trim(rep) == "" {
      return [];
    }
    matched := DirectIds(classes, rep);
    DirectIsGrowing(classes, rep);
    ghost var all := set c | c in classes :: c.id;
    while true
      invariant Growing(matched, classes, rep) && ParentsFirst(matched, classes, rep)
      decreases |all - Elements(matched)|
    {
      var children := ChildIds(classes, matched);
      GrowingGrows(matched, classes, rep);
      ParentsStayFirst(matched, classes, rep);
      if children == [] {
        GrowingIsUnique(matched, classes, rep);
        return;
      }
      hide Growing, ChildIds, UniqueIds, Elements, ParentsFirst;
      FirstChild(classes, matched);
      FewerLeft(all, matched, children);
      matched := matched + children;
    }
  }

  lemma DirectIsGrowing(classes: seq<Class>, rep: string)
    ensures Growing(DirectIds(classes, rep), classes, rep)
  {
    DirectIdsAre(classes, rep);
    hide IsDirect, DirectIds;
  }

  lemma GrowingIsUnique(matched: seq<string>, classes: seq<Class>, rep: string)
    requires Growing(matched, classes, rep)
    ensures UniqueIds(classes) ==> NoDuplicates(matched)
  {
  }

  lemma SmallerSet(a: set<string>, b: set<string>)
    requires a < b
    ensures |a| < |b|
  {
    var x :| x in b && x !in a;
    assert x in b - a && b == a + (b - a);
  }

  /** Two answers that are least are the same: the contract leaves no choice of the set. */
  lemma LeastIsUnique(a: set<string>, b: set<string>, classes: seq<Class>, rep: string)
    requires IsLeast(a, classes, rep) && IsLeast(b, classes, rep)
    ensures a == b
  {
  }

  // ---- ancestors, in any parent graph ----

  /** A class of the list, a class it names as its parent, and so on, up to one that matches the rep itself. */
  ghost predicate IsChain(classes: seq<Class>, chain: seq<Class>, rep: string) {
    && chain != [] && IsDirect(chain[|chain| - 1], rep)
    && (forall c | c in chain :: c in classes)
    && forall i | 0 <= i < |chain| - 1 :: chain[i].parent == Some(chain[i + 1].id)
  }

  ghost predicate HasChain(classes: seq<Class>, c: Class, rep: string) {
    exists chain: seq<Class> :: IsChain(classes, chain, rep) && chain[0] == c
  }

  lemma {:induction false} ChainInClosed(classes: seq<Class>, chain: seq<Class>, rep: string, ids: set<string>)
    requires IsChain(classes, chain, rep) && HasDirect(ids, classes, rep) && IsClosed(ids, classes)
    ensures chain[0].id in ids
    decreases |chain|
  {
    hide IsDirect;
    if |chain| == 1 {
      assert chain[0] in classes;
    } else {
      var rest := chain[1..];
      assert forall c | c in rest :: c in chain;
      ChainInClosed(classes, rest, rep, ids);
      assert chain[0] in classes && chain[0].parent == Some(chain[1].id);
    }
  }

  lemma LongerChain(classes: seq<Class>, c: Class, d: Class, rep: string)
    requires c in classes && c.parent == Some(d.id) && HasChain(classes, d, rep)
    ensures HasChain(classes, c, rep)
  {
    hide IsDirect;
    var chain: seq<Class> :| IsChain(classes, chain, rep) && chain[0] == d;
    var longer := [c] + chain;
    assert forall i | 0 <= i < |longer| - 1 :: longer[i].parent == Some(longer[i + 1].id);
    assert IsChain(classes, longer, rep) && longer[0] == c;
  }

  /** For every parent graph: a class id is the rep's exactly when a chain of parents leads from it to a match. */
  lemma LeastIffChain(classes: seq<Class>, rep: string, ids: set<string>, id: string)
    requires IsLeast(ids, classes, rep)
    ensures id in ids <==> exists c | c in classes && c.id == id :: HasChain(classes, c, rep)
  {
    hide IsDirect;
    if c :| c in classes && c.id == id && HasChain(classes, c, rep) {
      var chain: seq<Class> :| IsChain(classes, chain, rep) && chain[0] == c;
      ChainInClosed(classes, chain, rep, ids);
    }
    var reached := set c | c in classes && HasChain(classes, c, rep) :: c.id;
    forall c | c in classes && IsDirect(c, rep) ensures c.id in reached {
      assert IsChain(classes, [c], rep) && [c][0] == c;
    }
    forall c | c in classes && c.parent.Some? && c.parent.value in reached ensures c.id in reached {
      var d :| d in classes && HasChain(classes, d, rep) && d.id == c.parent.value;
      LongerChain(classes, c, d, rep);
    }
    assert HasDirect(reached, classes, rep) && IsClosed(reached, classes);
  }

  // ---- a forest ----

  /** Each parent link leads to a class with a strictly shorter name, so there are no cycles. */
  ghost predicate Shrinks(classes: seq<Class>) {
    forall c, d | c in classes && d in classes && c.parent == Some(d.id) :: |Key(d.fqn)| < |Key(c.fqn)|
  }

  lemma ParentShrinks(classes: seq<Class>, i: nat, k: nat)
    requires UniqueIds(classes) && i < |classes| && k < |classes| && classes[i].parent.None?
    requires ResolveParents(classes)[i].parent == Some(classes[k].id)
    ensures |Key(classes[k].fqn)| < |Key(classes[i].fqn)|
  {
    hide Key, ResolveParents, UniqueIds;
    InferredParentIsShorter(classes, i);
    var j :| 0 <= j < |classes| && ResolveParents(classes)[i].parent == Some(classes[j].id)
             && |Key(classes[j].fqn)| < |Key(classes[i].fqn)|;
    SameIndex(classes, j, k);
  }

  lemma SameIndex(classes: seq<Class>, j: nat, k: nat)
    requires UniqueIds(classes) && j < |classes| && k < |classes| && classes[j].id == classes[k].id
    ensures j == k
  {
  }

  lemma ResolvedIsForest(classes: seq<Class>)
    requires UniqueIds(classes) && forall c | c in classes :: c.parent.None?
    ensures UniqueIds(ResolveParents(classes)) && Shrinks(ResolveParents(classes))
  {
    ResolveTwice(classes);
    hide Key, WithParent;
    var resolved := ResolveParents(classes);
    forall c, d | c in resolved && d in resolved && c.parent == Some(d.id) ensures |Key(d.fqn)| < |Key(c.fqn)| {
      var i :| 0 <= i < |resolved| && resolved[i] == c;
      var k :| 0 <= k < |resolved| && resolved[k] == d;
      assert classes[i] in classes;
      ParentShrinks(classes, i, k);
    }
  }

  /** The class itself or one of its ancestors matches the rep. */
  ghost predicate SelfOrAncestor(classes: seq<Class>, c: Class, rep: string)
    requires Shrinks(classes) && c in classes
    decreases |Key(c.fqn)|
  {
    IsDirect(c, rep) || exists d | d in classes && c.parent == Some(d.id) :: SelfOrAncestor(classes, d, rep)
  }

  lemma {:induction false} AncestorsInClosed(classes: seq<Class>, c: Class, rep: string, ids: set<string>)
    requires Shrinks(classes) && c in classes && HasDirect(ids, classes, rep) && IsClosed(ids, classes)
    requires SelfOrAncestor(classes, c, rep)
    ensures c.id in ids
    decreases |Key(c.fqn)|
  {
    hide IsDirect, Key;
    if IsDirect(c, rep) {
    } else {
      var d :| d in classes && c.parent == Some(d.id) && SelfOrAncestor(classes, d, rep);
      AncestorsInClosed(classes, d, rep, ids);
    }
  }

  lemma SameIdSameClass(classes: seq<Class>, c: Class, d: Class)
    requires UniqueIds(classes) && c in classes && d in classes && c.id == d.id
    ensures c == d
  {
  }

  /** On a class list without explicit parents, a class belongs to a rep exactly if it or an ancestor matches. */
  lemma RepClassesAreDescendants(classes: seq<Class>, rep: string, ids: set<string>, c: Class)
    requires UniqueIds(classes) && forall x | x in classes :: x.parent.None?
    requires IsLeast(ids, ResolveParents(classes), rep) && c in ResolveParents(classes)
    ensures UniqueIds(ResolveParents(classes)) && Shrinks(ResolveParents(classes))
    ensures c.id in ids <==> SelfOrAncestor(ResolveParents(classes), c, rep)
  {
    ResolvedIsForest(classes);
    var resolved := ResolveParents(classes);
    hide ResolveParents, IsDirect, Key;
    if SelfOrAncestor(resolved, c, rep) {
      AncestorsInClosed(resolved, c, rep, ids);
    }
    var below := set d | d in resolved && SelfOrAncestor(resolved, d, rep) :: d.id;
    forall d | d in resolved && d.parent.Some? && d.parent.value in below ensures d.id in below {
      var p :| p in resolved && SelfOrAncestor(resolved, p, rep) && p.id == d.parent.value;
      assert d.parent == Some(p.id);
      assert SelfOrAncestor(resolved, d, rep);
    }
    assert HasDirect(below, resolved, rep) && IsClosed(below, resolved);
    if c.id in ids {
      var d :| d in resolved && SelfOrAncestor(resolved, d, rep) && d.id == c.id;
      SameIdSameClass(resolved, c, d);
    }
  }
}
