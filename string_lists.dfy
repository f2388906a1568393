/**
 * Ordered string lists as the search-path registry uses them: removing
 * duplicates while keeping the first occurrence of each string
 * (the behaviour of QStringList::removeDuplicates, lxqttranslator.cpp:56).
 */
module StringLists {

  /** No string occurs twice. */
  predicate Distinct(s: seq<string>)
  {
    forall i, j :: 0 <= i < j < |s| ==> s[i] != s[j]
  }

  /** Index of the first occurrence of `x` in `s`. */
  function FirstIndex(s: seq<string>, x: string): (k: nat)
    requires x in s
    ensures k < |s| && s[k] == x
    ensures forall j :: 0 <= j < k ==> s[j] != x
  {
    if s[0] == x then 0 else 1 + FirstIndex(s[1..], x)
  }

  /** `s` without the strings of `seen` and without repeats, first occurrences kept. */
  function DedupFrom(s: seq<string>, seen: set<string>): seq<string>
  {
    if s == [] then []
    else if s[0] in seen then DedupFrom(s[1..], seen)
    else [s[0]] + DedupFrom(s[1..], seen + {s[0]})
  }

  /** `s` with every repeated string dropped after its first occurrence. */
  function Dedup(s: seq<string>): seq<string>
  {
    DedupFrom(s, {})
  }

  /**
   * The duplicate removal, as a loop over the list that remembers the
   * strings it has already kept; the caller assigns its result back to the list.
   */
  method RemoveDuplicates(s: seq<string>) returns (r: seq<string>)
    ensures r == Dedup(s)
  {
    var seen: set<string> := {};
    r := [];
    var i := 0;
    while i < |s|
      invariant 0 <= i <= |s|
      invariant r + DedupFrom(s[i..], seen) == Dedup(s)
    {
      assert s[i..][0] == s[i] && s[i..][1..] == s[i + 1..];
      if s[i] !in seen {
        r := r + [s[i]];
        seen := seen + {s[i]};
      }
      i := i + 1;
    }
  }

  /** DedupFrom keeps exactly the strings of `s` that are not in `seen`, and never grows. */
  lemma {:induction false} DedupFromMembers(s: seq<string>, seen: set<string>)
    ensures |DedupFrom(s, seen)| <= |s|
    ensures forall x :: x in DedupFrom(s, seen) <==> x in s && x !in seen
  {
    if s != [] {
      DedupFromMembers(s[1..], if s[0] in seen then seen else seen + {s[0]});
      assert forall x :: x in s <==> x == s[0] || x in s[1..];
    }
  }

  /** DedupFrom never repeats a string. */
  lemma {:induction false} DedupFromNoRepeats(s: seq<string>, seen: set<string>)
    ensures Distinct(DedupFrom(s, seen))
  {
    if s != [] && s[0] !in seen {
      var rest := DedupFrom(s[1..], seen + {s[0]});
      DedupFromNoRepeats(s[1..], seen + {s[0]});
      DedupFromMembers(s[1..], seen + {s[0]});
      var r := [s[0]] + rest;
      forall i, j | 0 <= i < j < |r| ensures r[i] != r[j] {
        assert r[j] == rest[j - 1];
        if i > 0 {
          assert r[i] == rest[i - 1];
        }
      }
    } else if s != [] {
      DedupFromNoRepeats(s[1..], seen);
    }
  }

  /** Every string of `r` occurs in `s`, and `r` lists them in the order of their first occurrence in `s`. */
  predicate InFirstOccurrenceOrder(s: seq<string>, r: seq<string>)
  {
    && (forall x :: x in r ==> x in s)
    && (forall i, j :: 0 <= i < j < |r| ==> FirstIndex(s, r[i]) < FirstIndex(s, r[j]))
  }

  /** Past a different head, the first occurrence is one further along than in the tail. */
  lemma FirstIndexTail(s: seq<string>, x: string)
    requires |s| > 0 && x in s[1..] && x != s[0]
    ensures FirstIndex(s, x) == 1 + FirstIndex(s[1..], x)
  {
  }

  /** Order in the tail of `s` is order in `s`, and the head of `s` may go in front. */
  lemma OrderFromTail(s: seq<string>, rest: seq<string>)
    requires |s| > 0 && s[0] !in rest
    requires InFirstOccurrenceOrder(s[1..], rest)
    ensures InFirstOccurrenceOrder(s, rest)
    ensures InFirstOccurrenceOrder(s, [s[0]] + rest)
  {
    forall x | x in rest ensures x in s && FirstIndex(s, x) == 1 + FirstIndex(s[1..], x) {
      assert x in s[1..];
      FirstIndexTail(s, x);
    }
    var r := [s[0]] + rest;
    assert FirstIndex(s, s[0]) == 0;
    forall i, j | 0 <= i < j < |r|
      ensures FirstIndex(s, r[i]) < FirstIndex(s, r[j])
    {
      assert r[j] == rest[j - 1];
      if i > 0 {
        assert r[i] == rest[i - 1];
      }
    }
  }

  /** DedupFrom lists the strings it keeps in the order of their first occurrence in `s`. */
  lemma {:induction false} DedupFromOrder(s: seq<string>, seen: set<string>)
    ensures InFirstOccurrenceOrder(s, DedupFrom(s, seen))
  {
    if s != [] {
      var seen' := if s[0] in seen then seen else seen + {s[0]};
      DedupFromOrder(s[1..], seen');
      DedupFromMembers(s[1..], seen');
      OrderFromTail(s, DedupFrom(s[1..], seen'));
    }
  }

  /**
   * The de-duplicated list has no repeats, holds exactly the strings of the
   * input, and lists them in the order of their first occurrence.
   */
  lemma DedupProperties(s: seq<string>)
    ensures Distinct(Dedup(s))
    ensures forall x :: x in Dedup(s) <==> x in s
    ensures |Dedup(s)| <= |s|
    ensures InFirstOccurrenceOrder(s, Dedup(s))
  {
    DedupFromMembers(s, {});
    DedupFromNoRepeats(s, {});
    DedupFromOrder(s, {});
  }

  /** The first string of the input is always kept, in front. */
  lemma DedupKeepsHead(x: string, s: seq<string>)
    ensures |Dedup([x] + s)| > 0 && Dedup([x] + s)[0] == x
  {
    assert ([x] + s)[1..] == s;
  }

  /** A list without repeats is left as it is. */
  lemma {:induction false} DedupFromDistinct(s: seq<string>, seen: set<string>)
    requires Distinct(s)
    requires forall x :: x in seen ==> x !in s
    ensures DedupFrom(s, seen) == s
  {
    if s != [] {
      assert Distinct(s[1..]) by {
        forall i, j | 0 <= i < j < |s[1..]| ensures s[1..][i] != s[1..][j] {
          assert s[1..][i] == s[i + 1] && s[1..][j] == s[j + 1];
        }
      }
      assert forall k :: 0 <= k < |s[1..]| ==> s[1..][k] == s[k + 1] && s[k + 1] != s[0];
      DedupFromDistinct(s[1..], seen + {s[0]});
    }
  }

  /** De-duplication is idempotent. */
  lemma DedupIdempotent(s: seq<string>)
    ensures Dedup(Dedup(s)) == Dedup(s)
  {
    DedupProperties(s);
    DedupFromDistinct(Dedup(s), {});
  }
}
