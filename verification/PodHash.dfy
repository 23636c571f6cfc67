/**
  The fingerprint of a list of pod names (backend/internal/api/logs.go, hashStrings).

  SHA-256 is a parameter `sha`; the results that need it take it to be injective.
 */
module PodHash {
  import opened NameOrder

  // ---- The text that is hashed ----

  const NUL: char := '\0'

  // What the loop feeds to the hash: every name followed by a zero byte.
  function Encode(items: seq<string>): string {
    if items == [] then "" else items[0] + [NUL] + Encode(items[1..])
  }

  ghost predicate NulFree(items: seq<string>) {
    forall k :: 0 <= k < |items| ==> NUL !in items[k]
  }

  lemma SameFirstName(a: string, s: string, b: string, t: string)
    requires NUL !in a && NUL !in b && a + [NUL] + s == b + [NUL] + t
    ensures a == b && s == t
  {
    var x, y := a + [NUL] + s, b + [NUL] + t;
    assert x[|a|] == NUL && y[|b|] == NUL;
    forall k | 0 <= k < |b| ensures y[k] != NUL {
      assert b[k] in b;
    }
    forall k | 0 <= k < |a| ensures x[k] != NUL {
      assert a[k] in a;
    }
    assert x[..|a|] == a && y[..|b|] == b;
    assert x[|a| + 1..] == s && y[|b| + 1..] == t;
  }

  lemma {:induction false} EncodeIsInjective(a: seq<string>, b: seq<string>)
    requires NulFree(a) && NulFree(b) && Encode(a) == Encode(b)
    ensures a == b
  {
    if a != [] && b != [] {
      SameFirstName(a[0], Encode(a[1..]), b[0], Encode(b[1..]));
      EncodeIsInjective(a[1..], b[1..]);
      assert a == [a[0]] + a[1..] && b == [b[0]] + b[1..];
    }
  }

  // ---- The fingerprint ----

  ghost predicate Injective(sha: string -> string) {
    (forall x, y :: sha(x) == sha(y) ==> x == y) && forall x :: sha(x) != ""
  }

  function Hash(sha: string -> string, items: seq<string>): string {
    if items == [] then "" else sha(Encode(Sort(items)))
  }

  lemma {:induction false} EncodeAppend(items: seq<string>, item: string)
    ensures Encode(items + [item]) == Encode(items) + (item + [NUL])
  {
    if items == [] {
      assert items + [item] == [item] && [item][1..] == [];
    } else {
      assert (items + [item])[1..] == items[1..] + [item];
      EncodeAppend(items[1..], item);
      PrependAssoc(items[0] + [NUL], Encode(items[1..]), item + [NUL]);
    }
  }

  lemma PrependAssoc(a: string, b: string, c: string)
    ensures a + (b + c) == (a + b) + c
  {
  }

  method HashStrings(sha: string -> string, items: seq<string>) returns (r: string)
    ensures r == Hash(sha, items)
  {
    if |items| == 0 {
      return "";
    }
    var sorted := Sort(items);
    var fed := "";
    for k := 0 to |sorted|
      invariant fed == Encode(sorted[..k])
    {
      EncodeAppend(sorted[..k], sorted[k]);
      assert sorted[..k + 1] == sorted[..k] + [sorted[k]];
      fed := fed + (sorted[k] + [NUL]);
    }
    assert sorted[..|sorted|] == sorted;
    r := sha(fed);
  }

  // Main result: names without zero bytes have the same fingerprint exactly when they are the
  // same names, each equally often, in whatever order they were listed.
  lemma HashIdentifiesNames(sha: string -> string, a: seq<string>, b: seq<string>)
    requires Injective(sha) && NulFree(a) && NulFree(b)
    ensures Hash(sha, a) == Hash(sha, b) <==> multiset(a) == multiset(b)
  {
    assert |multiset(a)| == |a| && |multiset(b)| == |b|;
    SortSorts(a);
    SortSorts(b);
    SortKeepsNulFree(a);
    SortKeepsNulFree(b);
    if multiset(a) == multiset(b) {
      SortedIsUnique(Sort(a), Sort(b));
    } else if Hash(sha, a) == Hash(sha, b) {
      EncodeIsInjective(Sort(a), Sort(b));
      assert false;
    }
  }

  lemma SortKeepsNulFree(a: seq<string>)
    requires NulFree(a)
    ensures NulFree(Sort(a))
  {
    SortSorts(a);
    forall k | 0 <= k < |Sort(a)| ensures NUL !in Sort(a)[k] {
      assert Sort(a)[k] in multiset(Sort(a));
      assert Sort(a)[k] in a;
    }
  }

  // ---- Names with zero bytes ----

  // A name cut at its zero bytes: one piece more than there are zero bytes.
  function Cut(name: string): (pieces: seq<string>)
    ensures pieces != [] && NulFree(pieces)
  {
    if name == "" then [""]
    else
      var later := Cut(name[1..]);
      if name[0] == NUL then [""] + later else [[name[0]] + later[0]] + later[1..]
  }

  function Pieces(names: seq<string>): seq<string> {
    if names == [] then [] else Cut(names[0]) + Pieces(names[1..])
  }

  lemma {:induction false} EncodeConcat(a: seq<string>, b: seq<string>)
    ensures Encode(a + b) == Encode(a) + Encode(b)
  {
    if a == [] {
      assert a + b == b;
    } else {
      assert (a + b)[1..] == a[1..] + b;
      EncodeConcat(a[1..], b);
      PrependAssoc(a[0] + [NUL], Encode(a[1..]), Encode(b));
    }
  }

  lemma {:induction false} EncodeCut(name: string)
    ensures Encode(Cut(name)) == name + [NUL]
  {
    if name == "" {
      assert [""][1..] == [];
    } else {
      var later := Cut(name[1..]);
      EncodeCut(name[1..]);
      assert name + [NUL] == [name[0]] + (name[1..] + [NUL]);
      if name[0] == NUL {
        assert ([""] + later)[1..] == later;
      } else {
        var first := [name[0]] + later[0];
        assert ([first] + later[1..])[1..] == later[1..];
        assert first + [NUL] + Encode(later[1..]) == [name[0]] + (later[0] + [NUL] + Encode(later[1..]));
      }
    }
  }

  lemma {:induction false} EncodePieces(names: seq<string>)
    ensures Encode(Pieces(names)) == Encode(names)
    ensures NulFree(Pieces(names)) && |Pieces(names)| >= |names|
  {
    if names != [] {
      EncodePieces(names[1..]);
      EncodeCut(names[0]);
      EncodeConcat(Cut(names[0]), Pieces(names[1..]));
    }
  }

  // For any names at all: the fingerprints agree exactly when the sorted lists agree once every
  // name is cut at its zero bytes.
  lemma HashIdentifiesPieces(sha: string -> string, a: seq<string>, b: seq<string>)
    requires Injective(sha)
    ensures Hash(sha, a) == Hash(sha, b) <==> Pieces(Sort(a)) == Pieces(Sort(b))
  {
    EncodePieces(Sort(a));
    EncodePieces(Sort(b));
    SortSorts(a);
    SortSorts(b);
    assert |multiset(a)| == |a| && |multiset(Sort(a))| == |Sort(a)|;
    assert |multiset(b)| == |b| && |multiset(Sort(b))| == |Sort(b)|;
    if Hash(sha, a) == Hash(sha, b) {
      assert a == [] <==> b == [];
      EncodeIsInjective(Pieces(Sort(a)), Pieces(Sort(b)));
    }
  }

  // A zero byte inside a name would break it.
  lemma NulCollision(sha: string -> string)
    ensures Hash(sha, ["a" + [NUL] + "b"]) == Hash(sha, ["a", "b"])
  {
    var x := "a" + [NUL] + "b";
    SortedIsUnique(Sort([x]), [x]) by { SortSorts([x]); }
    SortedIsUnique(Sort(["a", "b"]), ["a", "b"]) by { SortSorts(["a", "b"]); }
    EncodeAppend([], x);
    EncodeAppend(["a"], "b");
    EncodeAppend([], "a");
    assert [] + [x] == [x] && ["a"] + ["b"] == ["a", "b"] && [] + ["a"] == ["a"];
    assert x + [NUL] == ("a" + [NUL]) + ("b" + [NUL]);
    assert Encode([]) == "";
    assert Encode([x]) == x + [NUL];
    assert Encode(["a"]) == "a" + [NUL];
    assert Encode(["a", "b"]) == ("a" + [NUL]) + ("b" + [NUL]);
    assert Sort([x]) == [x];
    assert Sort(["a", "b"]) == ["a", "b"];
  }
}
