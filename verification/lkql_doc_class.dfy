/**
 * Documentation coverage of the LKQL node classes, as computed by the Sphinx
 * extension in `user_manual/source/lkql_doc_class.py`: a directive flags a
 * class as documented, a class with subclasses counts as documented when all
 * of them are, and a report lists the classes that are still undocumented.
 *
 * The reflected class hierarchy of the `liblkqllang` module is a given,
 * static `Hierarchy` value.
 */
module LkqlDocClass {
  import opened Wrappers

  type Name = string

  /** The root of the node class hierarchy. */
  const Root: Name := "LKQLNode"

  /** The common base of the list node classes, which the report skips. */
  const ListRoot: Name := "LKQLNodeBaseList"

  /**
   * The node classes of the module in the order the module lists them, the
   * direct base (`__base__`) of every class but the root, and a rank that
   * grows from base to subclass; the rank witnesses that the inheritance
   * relation has no cycle.
   */
  datatype Hierarchy = Hierarchy(classes: seq<Name>, base: map<Name, Name>, rank: map<Name, nat>)

  predicate WellFormed(h: Hierarchy) {
    && Root in h.classes
    && ListRoot in h.classes
    && (forall i, j :: 0 <= i < j < |h.classes| ==> h.classes[i] != h.classes[j])
    && (forall c :: c in h.classes ==> c in h.rank && h.rank[c] < |h.classes|)
    && (forall c :: c in h.classes && c != Root ==>
          c in h.base && h.base[c] in h.classes && h.rank[h.base[c]] < h.rank[c])
  }

  /** Every class but the root has its base in the hierarchy. */
  predicate HasBases(h: Hierarchy, cs: seq<Name>) {
    forall x :: x in cs && x != Root ==> x in h.base
  }

  /** The direct subclasses of `c` among `cs`, in the order of `cs`. */
  function SubclassesIn(h: Hierarchy, cs: seq<Name>, c: Name): (r: seq<Name>)
    requires HasBases(h, cs)
    ensures forall x :: x in r ==> x in cs && x != Root && h.base[x] == c
    ensures |r| <= |cs|
  {
    if cs == [] then []
    else
      var x := cs[|cs| - 1];
      SubclassesIn(h, cs[..|cs| - 1], c) + (if x != Root && h.base[x] == c then [x] else [])
  }

  /** A class is listed under `c` exactly when it is one of `cs` whose direct base is `c`. */
  lemma {:induction false} SubclassesInMembers(h: Hierarchy, cs: seq<Name>, c: Name)
    requires HasBases(h, cs)
    ensures forall x :: x in SubclassesIn(h, cs, c) <==> x in cs && x != Root && h.base[x] == c
  {
    if cs != [] {
      var init := cs[..|cs| - 1];
      SubclassesInMembers(h, init, c);
      assert cs == init + [cs[|cs| - 1]];
    }
  }

  /** The direct subclasses of `c`, in the order the module lists them. */
  function Subclasses(h: Hierarchy, c: Name): seq<Name>
    requires WellFormed(h)
  {
    SubclassesIn(h, h.classes, c)
  }

  /** The direct subclasses of `c` are the classes whose `__base__` is `c`. */
  lemma SubclassesMembers(h: Hierarchy, c: Name)
    requires WellFormed(h)
    ensures forall x :: x in Subclasses(h, c) <==> x in h.classes && x != Root && h.base[x] == c
  {
    SubclassesInMembers(h, h.classes, c);
  }

  /** The list a `defaultdict(list)` gives for `c`: the stored one, or the empty list. */
  function Lookup(m: map<Name, seq<Name>>, c: Name): seq<Name> {
    if c in m then m[c] else []
  }

  /**
   * The map the pass below builds after visiting `cs`: every class but the
   * root appended to the list of its direct base.
   */
  ghost function Grouped(h: Hierarchy, cs: seq<Name>): map<Name, seq<Name>>
    requires HasBases(h, cs)
  {
    if cs == [] then map[]
    else
      var m, x := Grouped(h, cs[..|cs| - 1]), cs[|cs| - 1];
      if x != Root then m[h.base[x] := Lookup(m, h.base[x]) + [x]] else m
  }

  lemma GroupedPrefix(h: Hierarchy, cs: seq<Name>, k: nat)
    requires HasBases(h, cs) && k < |cs|
    ensures var m := Grouped(h, cs[..k]);
      Grouped(h, cs[..k + 1]) == if cs[k] != Root then m[h.base[cs[k]] := Lookup(m, h.base[cs[k]]) + [cs[k]]] else m
  {
    assert cs[..k + 1][..k] == cs[..k];
  }

  /** The built map holds, under every class, exactly its direct subclasses in order. */
  lemma {:induction false} GroupedLookup(h: Hierarchy, cs: seq<Name>, c: Name)
    requires HasBases(h, cs)
    ensures Lookup(Grouped(h, cs), c) == SubclassesIn(h, cs, c)
  {
    if cs != [] {
      GroupedLookup(h, cs[..|cs| - 1], c);
    }
  }

  /**
   * `lkql_cls_subclasses`: one pass over the classes that appends every class
   * but the root to the list of its direct base.
   */
  method ComputeSubclasses(h: Hierarchy) returns (res: map<Name, seq<Name>>)
    requires WellFormed(h)
    ensures forall c :: Lookup(res, c) == Subclasses(h, c)
  {
    res := map[];
    var k := 0;
    while k < |h.classes|
      invariant 0 <= k <= |h.classes|
      invariant res == Grouped(h, h.classes[..k])
    {
      GroupedPrefix(h, h.classes, k);
      var x := h.classes[k];
      if x != Root {
        var b := h.base[x];
        res := res[b := Lookup(res, b) + [x]];
      }
      k := k + 1;
    }
    assert h.classes[..k] == h.classes;
    forall c ensures Lookup(res, c) == Subclasses(h, c) {
      GroupedLookup(h, h.classes, c);
    }
  }

  /** The number of times `x` occurs in `s`. */
  function Occurrences(s: seq<Name>, x: Name): nat {
    if s == [] then 0 else (if s[0] == x then 1 else 0) + Occurrences(s[1..], x)
  }

  lemma {:induction false} OccurrencesOfSnoc(s: seq<Name>, y: Name, x: Name)
    ensures Occurrences(s + [y], x) == Occurrences(s, x) + (if y == x then 1 else 0)
  {
    if s != [] {
      assert (s + [y])[1..] == s[1..] + [y];
      OccurrencesOfSnoc(s[1..], y, x);
    }
  }

  /** Among distinct classes, a class occurs at most once in any subclass list. */
  lemma {:induction false} SubclassesInOnce(h: Hierarchy, cs: seq<Name>, c: Name, x: Name)
    requires HasBases(h, cs)
    requires forall i, j :: 0 <= i < j < |cs| ==> cs[i] != cs[j]
    ensures Occurrences(SubclassesIn(h, cs, c), x) == if x in cs && x != Root && h.base[x] == c then 1 else 0
  {
    if cs != [] {
      var init, y := cs[..|cs| - 1], cs[|cs| - 1];
      SubclassesInOnce(h, init, c, x);
      var tail := if y != Root && h.base[y] == c then [y] else [];
      if tail == [] {
        assert SubclassesIn(h, cs, c) == SubclassesIn(h, init, c);
      } else {
        OccurrencesOfSnoc(SubclassesIn(h, init, c), y, x);
      }
      assert x in cs <==> x in init || x == y;
      if x == y {
        assert y !in init by {
          forall i | 0 <= i < |init| ensures init[i] != y {
            assert init[i] == cs[i];
          }
        }
      }
    }
  }

  /**
   * The subclass map partitions the classes: every class but the root occurs
   * exactly once in the list of its direct base and in no other list, and the
   * root occurs in none.
   */
  lemma SubclassesPartition(h: Hierarchy, c: Name, p: Name)
    requires WellFormed(h) && c in h.classes
    ensures c == Root ==> Occurrences(Subclasses(h, p), c) == 0
    ensures c != Root ==> Occurrences(Subclasses(h, p), c) == if p == h.base[c] then 1 else 0
  {
    SubclassesInOnce(h, h.classes, p, c);
  }

  /**
   * The `documented` attribute as `getattr` reads it: set on the class itself
   * or, since a class attribute is inherited, on one of its ancestors.
   */
  predicate Flagged(h: Hierarchy, flags: set<Name>, c: Name)
    requires WellFormed(h) && c in h.classes
    decreases h.rank[c]
  {
    c in flags || (c != Root && Flagged(h, flags, h.base[c]))
  }

  /** Whether `c` is `LKQLNodeBaseList` or one of its descendants (`issubclass`). */
  predicate IsListClass(h: Hierarchy, c: Name)
    requires WellFormed(h) && c in h.classes
    decreases h.rank[c]
  {
    c == ListRoot || (c != Root && IsListClass(h, h.base[c]))
  }

  /**
   * `is_class_documented`: flagged, or having at least one subclass and every
   * direct subclass documented.
   */
  predicate IsDocumented(h: Hierarchy, flags: set<Name>, c: Name)
    requires WellFormed(h) && c in h.classes
    decreases |h.classes| - h.rank[c]
  {
    var subs := Subclasses(h, c);
    Flagged(h, flags, c) || (|subs| > 0 && forall sc :: sc in subs ==> IsDocumented(h, flags, sc))
  }

  /** A flagged class is documented, whatever its subclasses. */
  lemma FlaggedIsDocumented(h: Hierarchy, flags: set<Name>, c: Name)
    requires WellFormed(h) && c in h.classes && c in flags
    ensures IsDocumented(h, flags, c)
  {
  }

  /** An unflagged class without subclasses is not documented. */
  lemma UnflaggedLeafUndocumented(h: Hierarchy, flags: set<Name>, c: Name)
    requires WellFormed(h) && c in h.classes && !Flagged(h, flags, c) && Subclasses(h, c) == []
    ensures !IsDocumented(h, flags, c)
  {
  }

  /** An unflagged class with subclasses is documented exactly when all its direct subclasses are. */
  lemma UnflaggedInnerDocumented(h: Hierarchy, flags: set<Name>, c: Name)
    requires WellFormed(h) && c in h.classes && !Flagged(h, flags, c) && Subclasses(h, c) != []
    ensures IsDocumented(h, flags, c) <==>
      forall sc :: sc in h.classes && sc != Root && h.base[sc] == c ==> IsDocumented(h, flags, sc)
  {
    SubclassesMembers(h, c);
  }

  /**
   * A descent from a class through unflagged classes down to an unflagged
   * class without subclasses: the evidence that the first class is not documented.
   */
  ghost predicate UndocumentedPath(h: Hierarchy, flags: set<Name>, path: seq<Name>)
    requires WellFormed(h)
  {
    && |path| > 0
    && (forall i :: 0 <= i < |path| ==> path[i] in h.classes && !Flagged(h, flags, path[i]))
    && (forall i :: 0 < i < |path| ==> path[i] != Root && h.base[path[i]] == path[i - 1])
    && Subclasses(h, path[|path| - 1]) == []
  }

  lemma {:induction false} PathUndocumented(h: Hierarchy, flags: set<Name>, path: seq<Name>)
    requires WellFormed(h) && UndocumentedPath(h, flags, path)
    ensures !IsDocumented(h, flags, path[0])
    decreases |path|
  {
    if |path| > 1 {
      var rest := path[1..];
      assert rest[0] == path[1];
      assert UndocumentedPath(h, flags, rest) by {
        forall i | 0 < i < |rest| ensures rest[i] != Root && h.base[rest[i]] == rest[i - 1] {
          assert rest[i] == path[i + 1] && rest[i - 1] == path[i];
        }
      }
      PathUndocumented(h, flags, rest);
      SubclassesMembers(h, path[0]);
      assert path[1] in Subclasses(h, path[0]);
    }
  }

  lemma {:induction false} UndocumentedHasPath(h: Hierarchy, flags: set<Name>, c: Name) returns (path: seq<Name>)
    requires WellFormed(h) && c in h.classes && !IsDocumented(h, flags, c)
    ensures UndocumentedPath(h, flags, path) && path[0] == c
    decreases |h.classes| - h.rank[c]
  {
    var subs := Subclasses(h, c);
    if subs == [] {
      path := [c];
    } else {
      var sc :| sc in subs && !IsDocumented(h, flags, sc);
      var rest := UndocumentedHasPath(h, flags, sc);
      path := [c] + rest;
      PathCons(h, flags, c, rest);
    }
  }

  /** An unflagged direct base of the head of a path extends the path upwards. */
  lemma PathCons(h: Hierarchy, flags: set<Name>, c: Name, rest: seq<Name>)
    requires WellFormed(h) && c in h.classes && !Flagged(h, flags, c)
    requires UndocumentedPath(h, flags, rest) && rest[0] != Root && h.base[rest[0]] == c
    ensures UndocumentedPath(h, flags, [c] + rest)
  {
    var path := [c] + rest;
    forall i | 0 <= i < |path| ensures path[i] in h.classes && !Flagged(h, flags, path[i]) {
      if i > 0 {
        assert path[i] == rest[i - 1];
      }
    }
    forall i | 0 < i < |path| ensures path[i] != Root && h.base[path[i]] == path[i - 1] {
      assert path[i] == rest[i - 1];
      if i > 1 {
        assert path[i - 1] == rest[i - 2];
      }
    }
    assert path[|path| - 1] == rest[|rest| - 1];
  }

  /**
   * The recursive definition agrees with the reading of the docstring: a
   * class is undocumented exactly when some descent from it through unflagged
   * classes ends at an unflagged class without subclasses.
   */
  lemma UndocumentedIffPath(h: Hierarchy, flags: set<Name>, c: Name)
    requires WellFormed(h) && c in h.classes
    ensures !IsDocumented(h, flags, c) <==> exists path :: UndocumentedPath(h, flags, path) && path[0] == c
  {
    if !IsDocumented(h, flags, c) {
      var path := UndocumentedHasPath(h, flags, c);
    }
    forall path | UndocumentedPath(h, flags, path) && path[0] == c
      ensures !IsDocumented(h, flags, c)
    {
      PathUndocumented(h, flags, path);
    }
  }

  lemma {:induction false} FlaggedMonotone(h: Hierarchy, flags: set<Name>, more: set<Name>, c: Name)
    requires WellFormed(h) && c in h.classes && flags <= more && Flagged(h, flags, c)
    ensures Flagged(h, more, c)
    decreases h.rank[c]
  {
    if c !in flags {
      FlaggedMonotone(h, flags, more, h.base[c]);
    }
  }

  /** Flagging more classes never makes a documented class undocumented. */
  lemma {:induction false} DocumentedMonotone(h: Hierarchy, flags: set<Name>, more: set<Name>, c: Name)
    requires WellFormed(h) && c in h.classes && flags <= more && IsDocumented(h, flags, c)
    ensures IsDocumented(h, more, c)
    decreases |h.classes| - h.rank[c]
  {
    if Flagged(h, flags, c) {
      FlaggedMonotone(h, flags, more, c);
    } else {
      SubclassesMembers(h, c);
      forall sc | sc in Subclasses(h, c) ensures IsDocumented(h, more, sc) {
        DocumentedMonotone(h, flags, more, sc);
      }
    }
  }

  /** Flagging a class documents every class that inherits from it. */
  lemma {:induction false} FlagInherited(h: Hierarchy, flags: set<Name>, c: Name)
    requires WellFormed(h) && c in h.classes && c != Root && Flagged(h, flags, h.base[c])
    ensures IsDocumented(h, flags, c)
  {
  }

  /** The classes of `cs` the report lists: neither list classes nor documented, in order. */
  function UndocumentedIn(h: Hierarchy, flags: set<Name>, cs: seq<Name>): (r: seq<Name>)
    requires WellFormed(h) && forall x :: x in cs ==> x in h.classes
    ensures forall x :: x in r <==> x in cs && !IsListClass(h, x) && !IsDocumented(h, flags, x)
  {
    if cs == [] then []
    else
      var x := cs[|cs| - 1];
      UndocumentedIn(h, flags, cs[..|cs| - 1])
        + (if !IsListClass(h, x) && !IsDocumented(h, flags, x) then [x] else [])
  }

  lemma UndocumentedInPrefix(h: Hierarchy, flags: set<Name>, cs: seq<Name>, k: nat)
    requires WellFormed(h) && (forall x :: x in cs ==> x in h.classes) && k < |cs|
    ensures UndocumentedIn(h, flags, cs[..k + 1]) == UndocumentedIn(h, flags, cs[..k])
      + (if !IsListClass(h, cs[k]) && !IsDocumented(h, flags, cs[k]) then [cs[k]] else [])
  {
    assert cs[..k + 1][..k] == cs[..k];
  }

  /**
   * `process_lkql_classes_coverage`: one pass over the classes, skipping list
   * classes, that reports every class that is not documented.
   */
  method ReportUndocumented(h: Hierarchy, flags: set<Name>) returns (report: seq<Name>)
    requires WellFormed(h)
    ensures report == UndocumentedIn(h, flags, h.classes)
    ensures forall c :: c in report <==> c in h.classes && !IsListClass(h, c) && !IsDocumented(h, flags, c)
  {
    report := [];
    var k := 0;
    while k < |h.classes|
      invariant 0 <= k <= |h.classes|
      invariant report == UndocumentedIn(h, flags, h.classes[..k])
    {
      var c := h.classes[k];
      UndocumentedInPrefix(h, flags, h.classes, k);
      if IsListClass(h, c) {
      } else if !IsDocumented(h, flags, c) {
        report := report + [c];
      }
      k := k + 1;
    }
    assert h.classes[..k] == h.classes;
  }

  /**
   * Flagging one more class only shortens the report: nothing new appears,
   * and the flagged class itself is no longer listed.
   */
  lemma FlagShrinksReport(h: Hierarchy, flags: set<Name>, n: Name)
    requires WellFormed(h) && n in h.classes
    ensures forall c :: c in UndocumentedIn(h, flags + {n}, h.classes) ==> c in UndocumentedIn(h, flags, h.classes)
    ensures n !in UndocumentedIn(h, flags + {n}, h.classes)
  {
    forall c | c in h.classes && IsDocumented(h, flags, c) ensures IsDocumented(h, flags + {n}, c) {
      DocumentedMonotone(h, flags, flags + {n}, c);
    }
  }

  /** The error the directive raises for a name that is not a class of the module. */
  datatype DirectiveError = ExtensionError(message: string)

  /**
   * The state the `lkql_doc_class` directive changes: the build environment's
   * `documented_classes` list, absent until the first directive runs, and the
   * classes whose `documented` attribute is set.
   */
  class DocEnv {
    const h: Hierarchy
    var documentedClasses: Option<seq<Name>>
    var flags: set<Name>

    ghost predicate Valid()
      reads this
    {
      WellFormed(h) && forall c :: c in flags ==> c in h.classes
    }

    constructor (hierarchy: Hierarchy)
      requires WellFormed(hierarchy)
      ensures Valid() && h == hierarchy
      ensures documentedClasses == None && flags == {}
    {
      h := hierarchy;
      documentedClasses := None;
      flags := {};
    }

    /** The recorded classes, with an absent list read as empty. */
    function Recorded(): seq<Name>
      reads this
    {
      if documentedClasses.Some? then documentedClasses.value else []
    }

    /**
     * `LKQLDocClassDirective.run`: create the recorded list if absent; for a
     * class of the module, record it, flag it and produce no node; for any
     * other name, raise `LKQL class not found` and flag nothing.
     */
    method Run(name: Name) returns (r: Result<seq<Name>, DirectiveError>)
      requires Valid()
      modifies this
      ensures Valid()
      ensures name in h.classes ==>
        && r == Ok([])
        && documentedClasses == Some(old(Recorded()) + [name])
        && flags == old(flags) + {name}
      ensures name !in h.classes ==>
        && r == Err(ExtensionError("LKQL class not found: " + name))
        && documentedClasses == Some(old(Recorded()))
        && flags == old(flags)
      ensures name in h.classes ==> IsDocumented(h, flags, name)
      ensures forall c :: c in flags ==> IsDocumented(h, flags, c)
    {
      if documentedClasses.None? {
        documentedClasses := Some([]);
      }
      if name in h.classes {
        documentedClasses := Some(documentedClasses.value + [name]);
        flags := flags + {name};
        r := Ok([]);
      } else {
        r := Err(ExtensionError("LKQL class not found: " + name));
      }
      forall c | c in flags
        ensures IsDocumented(h, flags, c)
      {
        FlaggedIsDocumented(h, flags, c);
      }
    }
  }

  /** After the directive flags a class, that class is documented and the report only shrinks. */
  lemma RunDocuments(h: Hierarchy, flags: set<Name>, name: Name)
    requires WellFormed(h) && name in h.classes
    ensures IsDocumented(h, flags + {name}, name)
    ensures forall c :: c in UndocumentedIn(h, flags + {name}, h.classes) ==> c in UndocumentedIn(h, flags, h.classes)
  {
    FlagShrinksReport(h, flags, name);
  }
}
