/** The byte order of texts: the order of `std::string::operator<` and of SQLite's BINARY
    collation, which the timestamps of the system are compared with. */
module TextOrder {
  predicate Less(a: string, b: string) {
    if b == "" then false
    else if a == "" then true
    else if a[0] != b[0] then a[0] < b[0]
    else Less(a[1..], b[1..])
  }

  predicate AtMost(a: string, b: string) {
    !Less(b, a)
  }

  lemma {:induction false} Irreflexive(a: string)
    ensures !Less(a, a)
  {
    if a != "" {
      Irreflexive(a[1..]);
    }
  }

  lemma {:induction false} Transitive(a: string, b: string, c: string)
    requires Less(a, b) && Less(b, c)
    ensures Less(a, c)
  {
    if a != "" && a[0] == b[0] && b[0] == c[0] {
      Transitive(a[1..], b[1..], c[1..]);
    }
  }

  lemma {:induction false} Total(a: string, b: string)
    ensures a == b || Less(a, b) || Less(b, a)
  {
    if a == "" || b == "" {
    } else if a[0] == b[0] {
      Total(a[1..], b[1..]);
      assert a[1..] == b[1..] ==> a == [a[0]] + a[1..] == [b[0]] + b[1..] == b;
    }
  }

  /** At most one of `a < b` and `b < a`. */
  lemma Asymmetric(a: string, b: string)
    requires Less(a, b)
    ensures !Less(b, a)
  {
    if Less(b, a) {
      Transitive(a, b, a);
      Irreflexive(a);
    }
  }

  lemma AtMostTransitive(a: string, b: string, c: string)
    requires AtMost(a, b) && AtMost(b, c)
    ensures AtMost(a, c)
  {
    if Less(c, a) {
      Total(a, b);
      if Less(a, b) {
        Transitive(c, a, b);
      }
    }
  }

  /** A finite non-empty set of texts has a least element. */
  lemma {:induction false} LeastExists(texts: set<string>) returns (least: string)
    requires texts != {}
    ensures least in texts
    ensures forall t :: t in texts ==> AtMost(least, t)
  {
    var x :| x in texts;
    Irreflexive(x);
    if texts == {x} {
      return x;
    }
    var rest := texts - {x};
    assert texts == rest + {x};
    var m := LeastExists(rest);
    Total(x, m);
    least := if Less(x, m) then x else m;
    forall t | t in texts
      ensures AtMost(least, t)
    {
      if t in rest {
        if Less(x, m) {
          Asymmetric(x, m);
          AtMostTransitive(x, m, t);
        }
      }
    }
  }

  /** Where the texts first differ the smaller byte comes first, and a prefix comes before. */
  ghost predicate FirstDiffers(a: string, b: string, k: nat) {
    && k <= |a| && k < |b| && (forall i :: 0 <= i < k ==> a[i] == b[i])
    && (k == |a| || a[k] < b[k])
  }

  lemma {:induction false} LessMeaning(a: string, b: string)
    ensures Less(a, b) <==> exists k: nat :: FirstDiffers(a, b, k)
  {
    if a == "" || b == "" || a[0] != b[0] {
      assert Less(a, b) ==> FirstDiffers(a, b, 0);
    } else {
      LessMeaning(a[1..], b[1..]);
      if k: nat :| FirstDiffers(a[1..], b[1..], k) {
        assert FirstDiffers(a, b, k + 1);
      }
      if k: nat :| FirstDiffers(a, b, k) {
        assert FirstDiffers(a[1..], b[1..], k - 1);
      }
    }
  }
}
