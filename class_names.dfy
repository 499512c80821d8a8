/** `cn(...classes)`: the truthy arguments, in order, joined by single spaces.
    An argument is a string, `undefined`, `null` or `false`; the falsy ones,
    and the empty string, are dropped. */
module ClassNames {
  import opened Rows

  datatype ClassArg = Str(s: string) | Undefined | Null | False

  /** JavaScript truthiness of an argument. */
  predicate Truthy(a: ClassArg) {
    a.Str? && a.s != ""
  }

  /** `filter(Boolean)`, as the strings that remain. */
  function Kept(args: seq<ClassArg>): seq<string>
    decreases |args|
  {
    if args == [] then []
    else (if Truthy(args[0]) then [args[0].s] else []) + Kept(args[1..])
  }

  function Cn(args: seq<ClassArg>): string {
    Join(Kept(args), " ")
  }

  // ---------------------------------------------------------------------------
  // Splitting on spaces: the reference the result is read back with

  function FirstSpace(s: string): (i: nat)
    requires ' ' in s
    ensures i < |s| && s[i] == ' ' && ' ' !in s[..i]
  {
    if s[0] == ' ' then 0
    else
      assert ' ' in s[1..] by {
        var j :| 0 <= j < |s| && s[j] == ' ';
        assert s[1..][j - 1] == ' ';
      }
      var i := FirstSpace(s[1..]) + 1;
      assert s[..i] == [s[0]] + s[1..][..i - 1];
      i
  }

  /** The pieces between the spaces of `s`. */
  function Split(s: string): seq<string>
    decreases |s|
  {
    if ' ' !in s then [s]
    else
      var i := FirstSpace(s);
      [s[..i]] + Split(s[i + 1..])
  }

  // ---------------------------------------------------------------------------
  // What `cn` keeps

  /** Filtering distributes over concatenation: order is kept. */
  lemma {:induction false} KeptAppend(a: seq<ClassArg>, b: seq<ClassArg>)
    ensures Kept(a + b) == Kept(a) + Kept(b)
    decreases |a|
  {
    if a == [] {
      assert a + b == b;
    } else {
      assert (a + b)[1..] == a[1..] + b;
      KeptAppend(a[1..], b);
    }
  }

  /** A string is kept exactly when it is a non-empty string argument. */
  lemma {:induction false} KeptMember(args: seq<ClassArg>, x: string)
    ensures x in Kept(args) <==> x != "" && Str(x) in args
    decreases |args|
  {
    if args != [] {
      KeptMember(args[1..], x);
      assert args == [args[0]] + args[1..];
    }
  }

  /** Every kept string is non-empty and comes from a string argument. */
  lemma {:induction false} KeptNonEmpty(args: seq<ClassArg>)
    ensures forall i :: 0 <= i < |Kept(args)| ==> Kept(args)[i] != "" && Str(Kept(args)[i]) in args
  {
    forall i | 0 <= i < |Kept(args)|
      ensures Kept(args)[i] != "" && Str(Kept(args)[i]) in args
    {
      KeptMember(args, Kept(args)[i]);
    }
  }

  lemma {:induction false} KeptNone(args: seq<ClassArg>)
    requires forall i :: 0 <= i < |args| ==> !Truthy(args[i])
    ensures Kept(args) == []
    decreases |args|
  {
    if args != [] {
      KeptNone(args[1..]);
    }
  }

  // ---------------------------------------------------------------------------
  // How `join` separates

  /** Two joined runs meet at exactly one separator. */
  lemma {:induction false} JoinAppend(p: seq<string>, q: seq<string>, sep: string)
    requires p != [] && q != []
    ensures Join(p + q, sep) == Join(p, sep) + sep + Join(q, sep)
    decreases |p|
  {
    if |p| == 1 {
      assert (p + q)[1..] == q;
    } else {
      assert (p + q)[1..] == p[1..] + q;
      JoinAppend(p[1..], q, sep);
    }
  }

  lemma {:induction false} JoinNonEmpty(parts: seq<string>, sep: string)
    requires parts != [] && parts[0] != ""
    ensures Join(parts, sep) != ""
  {
    if |parts| > 1 {
      assert |Join(parts, sep)| >= |parts[0]|;
    }
  }

  /** Split undoes a join by spaces of pieces without spaces. */
  lemma {:induction false} SplitJoin(parts: seq<string>)
    requires parts != []
    requires forall i :: 0 <= i < |parts| ==> ' ' !in parts[i]
    ensures Split(Join(parts, " ")) == parts
    decreases |parts|
  {
    if |parts| > 1 {
      var x := parts[0];
      var rest := Join(parts[1..], " ");
      var s := x + " " + rest;
      assert s[|x|] == ' ';
      var i := FirstSpace(s);
      assert s[..i] == x;
      assert s[i + 1..] == rest;
      SplitJoin(parts[1..]);
    }
  }

  // ---------------------------------------------------------------------------
  // `cn` itself

  /** No arguments, or only falsy ones, give the empty string. */
  lemma CnEmpty(args: seq<ClassArg>)
    requires forall i :: 0 <= i < |args| ==> !Truthy(args[i])
    ensures Cn(args) == ""
  {
    KeptNone(args);
  }

  /** Any number of falsy arguments around a single truthy one give it as is. */
  lemma CnSingle(before: seq<ClassArg>, a: ClassArg, after: seq<ClassArg>)
    requires Truthy(a)
    requires forall i :: 0 <= i < |before| ==> !Truthy(before[i])
    requires forall i :: 0 <= i < |after| ==> !Truthy(after[i])
    ensures Cn(before + [a] + after) == a.s
  {
    KeptAppend(before + [a], after);
    KeptAppend(before, [a]);
    KeptNone(before);
    KeptNone(after);
    assert Kept([a]) == [a.s] by {
      assert [a][1..] == [];
    }
  }

  /** The result is empty exactly when no argument is truthy. */
  lemma CnEmptyIff(args: seq<ClassArg>)
    ensures Cn(args) == "" <==> Kept(args) == []
  {
    if Kept(args) != [] {
      KeptNonEmpty(args);
      JoinNonEmpty(Kept(args), " ");
    }
  }

  /** `cn(...a, ...b)` is `cn(...a)` and `cn(...b)` joined by one space, or
      whichever of them is not empty. */
  lemma CnAppend(a: seq<ClassArg>, b: seq<ClassArg>)
    ensures Cn(a + b) == if Cn(a) == "" then Cn(b) else if Cn(b) == "" then Cn(a) else Cn(a) + " " + Cn(b)
  {
    KeptAppend(a, b);
    CnEmptyIff(a);
    CnEmptyIff(b);
    if Kept(a) == [] {
      assert Kept(a) + Kept(b) == Kept(b);
    } else if Kept(b) == [] {
      assert Kept(a) + Kept(b) == Kept(a);
    } else {
      JoinAppend(Kept(a), Kept(b), " ");
    }
  }

  /** Reading the result back: when no argument contains a space and some
      argument is truthy, the pieces between single spaces are exactly the
      truthy arguments, in order, each exactly once per occurrence. */
  lemma CnRoundTrip(args: seq<ClassArg>)
    requires forall i :: 0 <= i < |args| ==> args[i].Str? ==> ' ' !in args[i].s
    requires exists i :: 0 <= i < |args| && Truthy(args[i])
    ensures Split(Cn(args)) == Kept(args)
  {
    var i :| 0 <= i < |args| && Truthy(args[i]);
    KeptMember(args, args[i].s);
    assert args[i] == Str(args[i].s);
    KeptNonEmpty(args);
    forall j | 0 <= j < |Kept(args)| ensures ' ' !in Kept(args)[j] {
      var x := Kept(args)[j];
      var k :| 0 <= k < |args| && args[k] == Str(x);
    }
    SplitJoin(Kept(args));
  }
}
