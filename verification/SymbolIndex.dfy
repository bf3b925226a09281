/** The by_symbol_ index of SimpleDescriptorDatabase: an ordered map in which a symbol is
    looked up by its greatest key not above it, and its insertion checks. */
module SymbolIndex {
  import opened Common

  // ----- the order of keys -----

  predicate Less(a: string, b: string) {
    b != [] && (a == [] || a[0] < b[0] || (a[0] == b[0] && Less(a[1..], b[1..])))
  }

  predicate Leq(a: string, b: string) {
    a == b || Less(a, b)
  }

  lemma {:induction false} LessIrreflexive(a: string)
    ensures !Less(a, a)
  {
    if a != [] { LessIrreflexive(a[1..]); }
  }

  lemma {:induction false} LessTotal(a: string, b: string)
    ensures a == b || Less(a, b) || Less(b, a)
  {
    if a != [] && b != [] && a[0] == b[0] {
      LessTotal(a[1..], b[1..]);
      assert a == [a[0]] + a[1..] && b == [b[0]] + b[1..];
    }
  }

  lemma {:induction false} LessTransitive(a: string, b: string, c: string)
    requires Less(a, b) && Less(b, c)
    ensures Less(a, c)
  {
    if a != [] && a[0] == b[0] == c[0] {
      LessTransitive(a[1..], b[1..], c[1..]);
    }
  }

  lemma LessAsymmetric(a: string, b: string)
    requires Less(a, b)
    ensures !Less(b, a) && a != b
  {
    LessIrreflexive(a);
    if Less(b, a) { LessTransitive(a, b, a); }
  }

  lemma {:induction false} PrefixLeq(m: string, s: string)
    requires m <= s
    ensures Leq(m, s)
  {
    if m != [] {
      PrefixLeq(m[1..], s[1..]);
      assert m == [m[0]] + m[1..] && s == [s[0]] + s[1..];
    }
  }

  /** Everything between a string and an extension of it extends it too, by no greater a
      character. */
  lemma {:induction false} BetweenExtends(m: string, f: string, s: string)
    requires m <= s && Leq(m, f) && Leq(f, s)
    ensures m <= f
    ensures |m| < |f| ==> |m| < |s| && f[|m|] <= s[|m|]
  {
    if f == s {
    } else if m == [] {
    } else {
      if f != m { LessHead(m, f); }
      LessHead(f, s);
      assert f[0] == m[0] == s[0];
      if f != m {
        assert m == [m[0]] + m[1..] && f == [f[0]] + f[1..];
      }
      assert f == [f[0]] + f[1..] && s == [s[0]] + s[1..];
      BetweenExtends(m[1..], f[1..], s[1..]);
    }
  }

  lemma LessHead(a: string, b: string)
    requires Less(a, b) && a != []
    ensures b != [] && a[0] <= b[0] && (a[0] == b[0] ==> Less(a[1..], b[1..]))
  {
  }

  // ----- symbols -----

  /** '.' sorts below every other character of a symbol name. */
  predicate SymbolChar(c: char) {
    c == '.' || c == '_' || '0' <= c <= '9' || 'A' <= c <= 'Z' || 'a' <= c <= 'z'
  }

  /** ValidateSymbolName. */
  predicate ValidName(name: string) {
    forall c <- name :: SymbolChar(c)
  }

  /** IsSubSymbol: `child` is `parent` itself or lies in its dotted scope. */
  predicate Covers(parent: string, child: string) {
    parent == child || (parent <= child && child[|parent|] == '.')
  }

  /** What a dotted scope is: the symbol itself and whatever follows it after a dot. */
  ghost predicate InScope(parent: string, child: string) {
    child == parent || exists rest: string :: child == parent + "." + rest
  }

  lemma CoversIsScope(parent: string, child: string)
    ensures Covers(parent, child) <==> InScope(parent, child)
  {
    if Covers(parent, child) && parent != child {
      assert child == parent + "." + child[|parent| + 1..];
    }
    if InScope(parent, child) && parent != child {
      var rest: string :| child == parent + "." + rest;
      assert child[|parent|] == (parent + "." + rest)[|parent|] == '.';
    }
  }

  const DIGITS := "0123456789"
  const CAPITALS := "ABCDEFGHIJKLMNOPQRSTUVWXYZ"
  const LETTERS := "abcdefghijklmnopqrstuvwxyz"

  /** Names are made of periods, underscores, digits and letters. */
  lemma ValidNameIff(name: string)
    ensures ValidName(name) <==> forall c <- name :: c in "._" || c in DIGITS || c in CAPITALS || c in LETTERS
  {
    forall c: char ensures SymbolChar(c) <==> c in "._" || c in DIGITS || c in CAPITALS || c in LETTERS {
      DigitIff(c);
      CapitalIff(c);
      LetterIff(c);
    }
  }

  lemma DigitIff(c: char)
    ensures '0' <= c <= '9' <==> c in DIGITS
  {
    if '0' <= c <= '9' { assert DIGITS[(c - '0') as int] == c; }
  }

  lemma CapitalIff(c: char)
    ensures 'A' <= c <= 'Z' <==> c in CAPITALS
  {
    if 'A' <= c <= 'Z' { assert CAPITALS[(c - 'A') as int] == c; }
  }

  lemma LetterIff(c: char)
    ensures 'a' <= c <= 'z' <==> c in LETTERS
  {
    if 'a' <= c <= 'z' { assert LETTERS[(c - 'a') as int] == c; }
  }

  datatype Entry<V> = Entry(key: string, value: V)

  ghost predicate Sorted<V>(es: seq<Entry<V>>) {
    forall i, j | 0 <= i < j < |es| :: Less(es[i].key, es[j].key)
  }

  ghost predicate AllValid<V>(es: seq<Entry<V>>) {
    forall e <- es :: ValidName(e.key)
  }

  /** The stated invariant: no key lies in the scope of another. */
  ghost predicate NoNesting<V>(es: seq<Entry<V>>) {
    forall i, j | 0 <= i < |es| && 0 <= j < |es| && i != j :: !Covers(es[i].key, es[j].key)
  }

  // ----- lookup -----

  /** The position of the first key above `name`. */
  function UpperBound<V>(es: seq<Entry<V>>, name: string): (u: nat)
    ensures u <= |es|
    ensures forall i | 0 <= i < u :: Leq(es[i].key, name)
    ensures u < |es| ==> !Leq(es[u].key, name)
  {
    if es == [] || !Leq(es[0].key, name) then 0
    else
      var u := UpperBound(es[1..], name) + 1;
      assert forall i | 1 <= i < u :: es[i] == es[1..][i - 1];
      u
  }

  /** FindLastLessOrEqual: the position before the upper bound, or the first position when
      every key is above `name`. */
  function FindLast<V>(es: seq<Entry<V>>, name: string): (k: nat)
    ensures k <= |es| && (k == |es| <==> es == [])
  {
    var u := UpperBound(es, name);
    if u != 0 then u - 1 else 0
  }

  /** FindSymbol. */
  function Find<V>(es: seq<Entry<V>>, name: string): Option<V> {
    var k := FindLast(es, name);
    if k != |es| && Covers(es[k].key, name) then Some(es[k].value) else None
  }

  /** The reference: scan all keys for one whose scope holds `name`. */
  function Scan<V>(es: seq<Entry<V>>, name: string): Option<V> {
    if es == [] then None
    else if Covers(es[0].key, name) then Some(es[0].value)
    else Scan(es[1..], name)
  }

  lemma CoversLeq(parent: string, child: string)
    requires Covers(parent, child)
    ensures Leq(parent, child)
  {
    PrefixLeq(parent, child);
  }

  /** The step of the documented proof: a key between the match and the search key lies in
      the match's scope. */
  lemma BetweenIsCovered(matching: string, found: string, name: string)
    requires Covers(matching, name) && ValidName(found) && Leq(matching, found) && Leq(found, name)
    ensures Covers(matching, found)
  {
    BetweenExtends(matching, found, name);
    if |matching| < |found| {
      assert found[|matching|] in found;
    } else {
      assert matching == found;
    }
  }

  /** If some key covers `name`, the greatest key not above `name` is that key. */
  lemma MatchIsFound<V>(es: seq<Entry<V>>, name: string, i: nat)
    requires Sorted(es) && AllValid(es) && NoNesting(es) && i < |es| && Covers(es[i].key, name)
    ensures FindLast(es, name) == i
  {
    var u := UpperBound(es, name);
    CoversLeq(es[i].key, name);
    if i >= u {
      if i > u {
        LessTransitiveLeq(es[u].key, es[i].key, name);
      }
      assert false;
    }
    var k := u - 1;
    if i != k {
      BetweenIsCovered(es[i].key, es[k].key, name);
      assert false;
    }
  }

  lemma LessTransitiveLeq(a: string, b: string, c: string)
    requires Less(a, b) && Leq(b, c)
    ensures Leq(a, c)
  {
    if b != c { LessTransitive(a, b, c); }
  }

  lemma {:induction false} ScanFindsFirst<V>(es: seq<Entry<V>>, name: string)
    ensures Scan(es, name) == None <==> forall i | 0 <= i < |es| :: !Covers(es[i].key, name)
    ensures Scan(es, name).Some? ==>
              exists i :: 0 <= i < |es| && Covers(es[i].key, name) && Scan(es, name) == Some(es[i].value)
  {
    if es != [] {
      ScanFindsFirst(es[1..], name);
      if !Covers(es[0].key, name) {
        forall i | 0 <= i < |es| ensures i > 0 ==> es[i] == es[1..][i - 1] {}
        if Scan(es[1..], name).Some? {
          var j :| 0 <= j < |es[1..]| && Covers(es[1..][j].key, name) && Scan(es[1..], name) == Some(es[1..][j].value);
          assert es[j + 1] == es[1..][j];
        }
      }
    }
  }

  /** Under the invariant at most one key covers a name. */
  lemma AtMostOneMatch<V>(es: seq<Entry<V>>, name: string, i: nat, j: nat)
    requires Sorted(es) && AllValid(es) && NoNesting(es) && i < |es| && j < |es|
    requires Covers(es[i].key, name) && Covers(es[j].key, name)
    ensures i == j
  {
    MatchIsFound(es, name, i);
    MatchIsFound(es, name, j);
  }

  /** Under the invariant the logarithmic lookup returns exactly what a scan of all keys
      returns, for any search string whatever. */
  lemma FindIsScan<V>(es: seq<Entry<V>>, name: string)
    requires Sorted(es) && AllValid(es) && NoNesting(es)
    ensures Find(es, name) == Scan(es, name)
  {
    ScanFindsFirst(es, name);
    if Scan(es, name).Some? {
      var i :| 0 <= i < |es| && Covers(es[i].key, name) && Scan(es, name) == Some(es[i].value);
      MatchIsFound(es, name, i);
    }
  }

  /** `r` is the value of a key whose scope holds `name`, or nothing when there is no such
      key. */
  ghost predicate Answers<V>(es: seq<Entry<V>>, name: string, r: Option<V>) {
    match r
    case None => forall i | 0 <= i < |es| :: !InScope(es[i].key, name)
    case Some(v) => exists i :: 0 <= i < |es| && InScope(es[i].key, name) && es[i].value == v
  }

  /** The scan answers in terms of dotted scopes. */
  lemma ScanMeans<V>(es: seq<Entry<V>>, name: string)
    ensures Answers(es, name, Scan(es, name))
  {
    ScanFindsFirst(es, name);
    forall i | 0 <= i < |es| ensures Covers(es[i].key, name) <==> InScope(es[i].key, name) {
      CoversIsScope(es[i].key, name);
    }
  }

  /** Under the invariant the lookup answers `r` exactly when `r` is the value of the key
      whose dotted scope holds the name, or nothing when no key's does. */
  lemma FindMeans<V>(es: seq<Entry<V>>, name: string, r: Option<V>)
    requires Sorted(es) && AllValid(es) && NoNesting(es)
    ensures Find(es, name) == r <==> Answers(es, name, r)
  {
    FindIsScan(es, name);
    ScanMeans(es, name);
    if Answers(es, name, r) && r.Some? {
      var i: nat :| i < |es| && InScope(es[i].key, name) && es[i].value == r.value;
      CoversIsScope(es[i].key, name);
      MatchIsFound(es, name, i);
    }
  }

  // ----- insertion -----

  function Insert<V>(es: seq<Entry<V>>, name: string, value: V): seq<Entry<V>> {
    var u := UpperBound(es, name);
    es[..u] + [Entry(name, value)] + es[u..]
  }

  /** AddSymbol: the map after a successful insertion, or nothing. */
  function Add<V>(es: seq<Entry<V>>, name: string, value: V): Option<seq<Entry<V>>> {
    var k := FindLast(es, name);
    if !ValidName(name) then None
    else if k == |es| then Some(Insert(es, name, value))
    else if Covers(es[k].key, name) then None
    else if k + 1 < |es| && Covers(name, es[k + 1].key) then None
    else Some(Insert(es, name, value))
  }

  /** Some key lies in the scope of `name`, or `name` in the scope of some key. */
  ghost predicate Conflict<V>(es: seq<Entry<V>>, name: string) {
    exists i :: 0 <= i < |es| && (Covers(es[i].key, name) || Covers(name, es[i].key))
  }

  /** The conflict AddSymbol overlooks: the only key in the scope of `name` is the least
      key of the map. When every key is above `name`, FindLast answers with the least key,
      and the check that should look at it looks at its successor instead. */
  predicate Overlooked<V>(es: seq<Entry<V>>, name: string) {
    es != [] && name != es[0].key && Covers(name, es[0].key) && (|es| == 1 || !Covers(name, es[1].key))
  }

  lemma UpperBoundSplits<V>(es: seq<Entry<V>>, name: string, i: nat)
    requires Sorted(es) && i < |es|
    ensures i < UpperBound(es, name) ==> Leq(es[i].key, name)
    ensures i >= UpperBound(es, name) ==> Less(name, es[i].key)
  {
    var u := UpperBound(es, name);
    if i >= u {
      LessTotal(es[u].key, name);
      if i > u { LessTransitive(name, es[u].key, es[i].key); }
    }
  }

  lemma InsertIsSorted<V>(es: seq<Entry<V>>, name: string, value: V)
    requires Sorted(es) && (forall e <- es :: e.key != name)
    ensures Sorted(Insert(es, name, value))
  {
    var r := Insert(es, name, value);
    var u := UpperBound(es, name);
    forall i, j | 0 <= i < j < |r| ensures Less(r[i].key, r[j].key) {
      if i == u {
        UpperBoundSplits(es, name, j - 1);
      } else if j == u {
        UpperBoundSplits(es, name, i);
        assert es[i] in es;
      } else {
        var i', j' := if i < u then i else i - 1, if j < u then j else j - 1;
        assert Less(es[i'].key, es[j'].key);
      }
    }
  }

  lemma InsertMembers<V>(es: seq<Entry<V>>, name: string, value: V)
    ensures forall e :: e in Insert(es, name, value) <==> e == Entry(name, value) || e in es
  {
    var u := UpperBound(es, name);
    assert es == es[..u] + es[u..];
  }

  /** The keys in the scope of `name` follow it directly. */
  lemma ScopeFollows<V>(es: seq<Entry<V>>, name: string, i: nat)
    requires Sorted(es) && AllValid(es) && i < |es| && Covers(name, es[i].key) && name != es[i].key
    ensures var u := UpperBound(es, name); u <= i && Covers(name, es[u].key)
  {
    var u := UpperBound(es, name);
    CoversLeq(name, es[i].key);
    LessAsymmetric(name, es[i].key);
    UpperBoundSplits(es, name, i);
    UpperBoundSplits(es, name, u);
    BetweenIsCovered(name, es[u].key, es[i].key);
  }

  /** When no key covers `name`, the first key above `name` decides whether there is a
      conflict. */
  lemma ConflictAtUpperBound<V>(es: seq<Entry<V>>, name: string)
    requires Sorted(es) && AllValid(es) && NoNesting(es)
    requires forall i | 0 <= i < |es| :: !Covers(es[i].key, name)
    ensures var u := UpperBound(es, name);
            Conflict(es, name) <==> u < |es| && Covers(name, es[u].key)
  {
    if Conflict(es, name) {
      var i :| 0 <= i < |es| && (Covers(es[i].key, name) || Covers(name, es[i].key));
      ScopeFollows(es, name, i);
    }
  }

  /** Exactly which symbols AddSymbol accepts: the valid ones without a conflict, and those
      whose conflict it overlooks. */
  lemma AddAccepts<V>(es: seq<Entry<V>>, name: string, value: V)
    requires Sorted(es) && AllValid(es) && NoNesting(es)
    ensures Add(es, name, value).Some? <==> ValidName(name) && (!Conflict(es, name) || Overlooked(es, name))
  {
    if es != [] {
      if exists i :: 0 <= i < |es| && Covers(es[i].key, name) {
        var i :| 0 <= i < |es| && Covers(es[i].key, name);
        MatchIsFound(es, name, i);
        CoveredNotOverlooked(es, name, i);
      } else {
        ConflictAtUpperBound(es, name);
        OverlookedIsLeast(es, name);
        if |es| > 1 && Covers(name, es[1].key) {
          ScopeFollows(es, name, 1);
        }
      }
    }
  }

  lemma OverlookedIsLeast<V>(es: seq<Entry<V>>, name: string)
    ensures Overlooked(es, name) ==> UpperBound(es, name) == 0
  {
    if Overlooked(es, name) {
      CoversLeq(name, es[0].key);
      LessAsymmetric(name, es[0].key);
    }
  }

  lemma CoveredNotOverlooked<V>(es: seq<Entry<V>>, name: string, i: nat)
    requires NoNesting(es) && i < |es| && Covers(es[i].key, name)
    ensures !Overlooked(es, name)
  {
    if Covers(name, es[0].key) {
      CoversTransitive(es[i].key, name, es[0].key);
    }
  }

  lemma CoversTransitive(a: string, b: string, c: string)
    requires Covers(a, b) && Covers(b, c)
    ensures Covers(a, c)
  {
  }

  /** AddSymbol keeps the map sorted and its keys valid, whatever the map. */
  lemma AddKeepsOrder<V>(es: seq<Entry<V>>, name: string, value: V)
    requires Sorted(es) && AllValid(es) && Add(es, name, value).Some?
    ensures Sorted(Insert(es, name, value)) && AllValid(Insert(es, name, value))
  {
    var u := UpperBound(es, name);
    forall e <- es ensures e.key != name {
      var i :| 0 <= i < |es| && es[i] == e;
      UpperBoundSplits(es, name, i);
      LessIrreflexive(name);
      if e.key == name && i + 1 < u {
        UpperBoundSplits(es, name, u - 1);
        LessAsymmetric(es[i].key, es[u - 1].key);
      }
    }
    InsertIsSorted(es, name, value);
    InsertMembers(es, name, value);
  }

  lemma InsertAt<V>(es: seq<Entry<V>>, name: string, value: V, k: nat)
    requires k <= |es|
    ensures var u, r := UpperBound(es, name), Insert(es, name, value);
            |r| == |es| + 1 && r[k] == if k < u then es[k] else if k == u then Entry(name, value) else es[k - 1]
  {
  }

  lemma InsertedPair<V>(es: seq<Entry<V>>, name: string, value: V, i: nat, j: nat)
    requires NoNesting(es) && i <= |es| && j <= |es| && i != j
    requires forall k | 0 <= k < |es| :: !Covers(es[k].key, name) && !Covers(name, es[k].key)
    ensures var r := Insert(es, name, value); |r| == |es| + 1 && !Covers(r[i].key, r[j].key)
  {
    InsertAt(es, name, value, i);
    InsertAt(es, name, value, j);
  }

  lemma InsertNests<V>(es: seq<Entry<V>>, name: string, value: V)
    requires NoNesting(es) && (forall i | 0 <= i < |es| :: !Covers(es[i].key, name))
    ensures NoNesting(Insert(es, name, value)) <==> forall i | 0 <= i < |es| :: !Covers(name, es[i].key)
  {
    var r := Insert(es, name, value);
    var u := UpperBound(es, name);
    InsertAt(es, name, value, u);
    if NoNesting(r) {
      forall i | 0 <= i < |es| ensures !Covers(name, es[i].key) {
        var k := if i < u then i else i + 1;
        InsertAt(es, name, value, k);
        assert !Covers(r[u].key, r[k].key);
      }
    }
    if forall i | 0 <= i < |es| :: !Covers(name, es[i].key) {
      forall i, j | 0 <= i < |r| && 0 <= j < |r| && i != j ensures !Covers(r[i].key, r[j].key) {
        InsertedPair(es, name, value, i, j);
      }
    }
  }

  /** AddSymbol keeps the stated invariant exactly when it did not overlook a conflict. */
  lemma AddKeepsInvariant<V>(es: seq<Entry<V>>, name: string, value: V)
    requires Sorted(es) && AllValid(es) && NoNesting(es) && Add(es, name, value).Some?
    ensures NoNesting(Insert(es, name, value)) <==> !Overlooked(es, name)
  {
    AddAccepts(es, name, value);
    forall i | 0 <= i < |es| ensures !Covers(es[i].key, name) {
      if Covers(es[i].key, name) {
        MatchIsFound(es, name, i);
      }
    }
    InsertNests(es, name, value);
  }

  /** What AddSymbol refuses, in terms of dotted scopes: an invalid name, a name in the
      scope of a key, and a name that has a key in its scope unless that is the least key
      alone. */
  lemma AddRefuses<V>(es: seq<Entry<V>>, name: string, value: V)
    requires Sorted(es) && AllValid(es) && NoNesting(es)
    ensures Add(es, name, value) == None <==>
              || !ValidName(name)
              || (exists i :: 0 <= i < |es| && InScope(es[i].key, name))
              || (exists i :: 1 <= i < |es| && InScope(name, es[i].key))
  {
    AddAccepts(es, name, value);
    forall i | 0 <= i < |es|
      ensures Covers(es[i].key, name) <==> InScope(es[i].key, name)
      ensures Covers(name, es[i].key) <==> InScope(name, es[i].key)
    {
      CoversIsScope(es[i].key, name);
      CoversIsScope(name, es[i].key);
    }
    if exists i: nat :: i < |es| && Covers(es[i].key, name) {
      var i: nat :| i < |es| && Covers(es[i].key, name);
      CoveredNotOverlooked(es, name, i);
    } else {
      OverlookedUnlessLater(es, name);
    }
  }

  /** The keys in a scope being neighbours, the second key decides for all the later ones
      when the first is in it. */
  lemma OverlookedUnlessLater<V>(es: seq<Entry<V>>, name: string)
    requires Sorted(es) && AllValid(es) && forall i | 0 <= i < |es| :: !Covers(es[i].key, name)
    ensures Conflict(es, name) && !Overlooked(es, name) <==> exists i :: 1 <= i < |es| && Covers(name, es[i].key)
  {
    if exists i: nat :: 1 <= i < |es| && Covers(name, es[i].key) {
      var i: nat :| 1 <= i < |es| && Covers(name, es[i].key);
      if Covers(name, es[0].key) {
        SecondInScope(es, name, i);
      }
    }
  }

  lemma SecondInScope<V>(es: seq<Entry<V>>, name: string, i: nat)
    requires Sorted(es) && AllValid(es) && 1 <= i < |es| && Covers(name, es[i].key) && Covers(name, es[0].key)
    ensures Covers(name, es[1].key)
  {
    CoversLeq(name, es[0].key);
    LessAsymmetric(es[0].key, es[1].key);
    if name != es[0].key { LessTransitive(name, es[0].key, es[1].key); }
    BetweenIsCovered(name, es[1].key, es[i].key);
  }

  /** After an insertion that keeps the invariant, the names in the new symbol's scope are
      found with its value and every other name as before. */
  lemma FoundAfterAdd<V>(es: seq<Entry<V>>, name: string, value: V, other: string)
    requires Sorted(es) && AllValid(es) && NoNesting(es)
    requires Add(es, name, value).Some? && !Overlooked(es, name)
    ensures InScope(name, other) ==> Find(Insert(es, name, value), other) == Some(value)
    ensures !InScope(name, other) ==> Find(Insert(es, name, value), other) == Find(es, other)
  {
    var r := Insert(es, name, value);
    AddKeepsOrder(es, name, value);
    AddKeepsInvariant(es, name, value);
    InsertMembers(es, name, value);
    if InScope(name, other) {
      assert Entry(name, value) in r;
      FindMeans(r, other, Some(value));
    } else {
      FindMeans(es, other, Find(es, other));
      if Find(es, other).Some? {
        var i :| 0 <= i < |es| && InScope(es[i].key, other) && es[i].value == Find(es, other).value;
        assert es[i] in r;
      } else {
        forall j | 0 <= j < |r| ensures !InScope(r[j].key, other) {
          assert r[j] in r;
        }
      }
      FindMeans(r, other, Find(es, other));
    }
  }

  /** Two valid names neither of which is in the other's scope live side by side, and each
      is found by itself. */
  lemma SideBySide(p: string, q: string, v: int, w: int)
    requires ValidName(p) && ValidName(q) && !InScope(p, q) && !InScope(q, p)
    ensures var es := [Entry(p, v)];
            && Find(es, q) == None && Add(es, q, w).Some?
            && Find(Insert(es, q, w), q) == Some(w) && Find(Insert(es, q, w), p) == Some(v)
  {
    var es := [Entry(p, v)];
    CoversIsScope(q, p);
    FindMeans(es, p, Some(v));
    FindMeans(es, q, None);
    AddRefuses(es, q, w);
    FoundAfterAdd(es, q, w, q);
    FoundAfterAdd(es, q, w, p);
  }

  /** A name below a key is found with the key's value and cannot be added. */
  lemma BelowAKey(p: string, rest: string, v: int, w: int)
    requires ValidName(p)
    ensures var es := [Entry(p, v)]; Find(es, p + "." + rest) == Some(v) && Add(es, p + "." + rest, w) == None
  {
    var es := [Entry(p, v)];
    assert InScope(p, p + "." + rest);
    FindMeans(es, p + "." + rest, Some(v));
    AddRefuses(es, p + "." + rest, w);
  }

  /** The documented names: "foo.bar" is a parent of "foo.bar.baz" and no relative of
      "foo.barbaz", which is accepted beside it. */
  lemma SiblingsAreNotNested(v: int, w: int)
    ensures var es := [Entry("foo.bar", v)];
            && Find(es, "foo.bar.baz") == Some(v) && Add(es, "foo.bar.baz", w) == None
            && Find(es, "foo.barbaz") == None && Add(es, "foo.barbaz", w).Some?
            && Find(Insert(es, "foo.barbaz", w), "foo.barbaz") == Some(w)
            && Find(Insert(es, "foo.barbaz", w), "foo.bar") == Some(v)
  {
    hide Find, Add, Insert;
    assert "foo.bar" + "." + "baz" == "foo.bar.baz" && "foo.barbaz"[7] == 'b';
    BelowAKey("foo.bar", "baz", v, w);
    CoversIsScope("foo.bar", "foo.barbaz");
    CoversIsScope("foo.barbaz", "foo.bar");
    SideBySide("foo.bar", "foo.barbaz", v, w);
  }

  /** A conflict that is overlooked: with only "a.b" present, "a" is accepted, and then a
      lookup of "a.c" misses it although a scan finds it. */
  lemma OverlookedConflict()
    ensures var es := [Entry("a.b", 1)];
            && Sorted(es) && AllValid(es) && NoNesting(es) && Overlooked(es, "a")
            && Add(es, "a", 2) == Some([Entry("a", 2), Entry("a.b", 1)])
            && Find([Entry("a", 2), Entry("a.b", 1)], "a.c") == None
            && Scan([Entry("a", 2), Entry("a.b", 1)], "a.c") == Some(2)
  {
    var es := [Entry("a.b", 1)];
    assert Less("a", "a.b") && !Leq("a.b", "a");
    assert "a.b"[1..] == ".b" && "a.c"[1..] == ".c" && ".b"[1..] == "b" && ".c"[1..] == "c";
    assert Less("b", "c") && Less(".b", ".c") && Less("a.b", "a.c") && Less("a", "a.c");
    var bad := [Entry("a", 2), Entry("a.b", 1)];
    assert bad[1..] == es && es[1..] == [];
    assert UpperBound(es, "a.c") == 1 && UpperBound(bad, "a.c") == 2;
    assert UpperBound(es, "a") == 0 && es[..0] + [Entry("a", 2)] + es[0..] == bad;
  }

  // ----- the index object -----

  class DescriptorIndex<V> {
    var bySymbol: seq<Entry<V>>

    ghost predicate Valid()
      reads this
    {
      Sorted(bySymbol) && AllValid(bySymbol)
    }

    constructor ()
      ensures Valid() && bySymbol == []
    {
      bySymbol := [];
    }

    /** upper_bound of the ordered map, by bisection. */
    method Upper(name: string) returns (u: nat)
      requires Valid()
      ensures u == UpperBound(bySymbol, name)
    {
      var lo, hi := 0, |bySymbol|;
      while lo < hi
        invariant 0 <= lo <= UpperBound(bySymbol, name) <= hi <= |bySymbol|
      {
        var mid := (lo + hi) / 2;
        UpperBoundSplits(bySymbol, name, mid);
        if Leq(bySymbol[mid].key, name) {
          if mid >= UpperBound(bySymbol, name) { LessAsymmetric(name, bySymbol[mid].key); }
          lo := mid + 1;
        } else {
          hi := mid;
        }
      }
      u := lo;
    }

    method FindLastLessOrEqual(name: string) returns (iter: nat)
      requires Valid()
      ensures iter == FindLast(bySymbol, name)
    {
      iter := Upper(name);
      if iter != 0 { iter := iter - 1; }
    }

    /** The result is right for every name when the stated invariant holds. */
    method FindSymbol(name: string) returns (r: Option<V>)
      requires Valid()
      ensures r == Find(bySymbol, name)
      ensures NoNesting(bySymbol) ==> r == Scan(bySymbol, name) && Answers(bySymbol, name, r)
    {
      var iter := FindLastLessOrEqual(name);
      r := if iter != |bySymbol| && Covers(bySymbol[iter].key, name) then Some(bySymbol[iter].value) else None;
      if NoNesting(bySymbol) {
        FindIsScan(bySymbol, name);
        ScanMeans(bySymbol, name);
      }
    }

    method AddSymbol(name: string, value: V) returns (ok: bool)
      requires Valid()
      modifies this
      ensures Valid()
      ensures bySymbol == if ok then Insert(old(bySymbol), name, value) else old(bySymbol)
      ensures old(NoNesting(bySymbol)) ==>
                && (ok <==> ValidName(name) && (!Conflict(old(bySymbol), name) || Overlooked(old(bySymbol), name)))
                && (NoNesting(bySymbol) <==> !(ok && Overlooked(old(bySymbol), name)))
    {
      if NoNesting(bySymbol) { AddAccepts(bySymbol, name, value); }
      if Add(bySymbol, name, value).Some? {
        AddKeepsOrder(bySymbol, name, value);
        if NoNesting(bySymbol) { AddKeepsInvariant(bySymbol, name, value); }
      }
      if !ValidName(name) {
        return false;
      }
      var iter := FindLastLessOrEqual(name);
      if iter != |bySymbol| {
        if Covers(bySymbol[iter].key, name) {
          return false;
        }
        iter := iter + 1;
        if iter != |bySymbol| && Covers(name, bySymbol[iter].key) {
          return false;
        }
      }
      bySymbol := Insert(bySymbol, name, value);
      ok := true;
    }
  }
}
