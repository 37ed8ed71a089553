/** Directory listings: os.ReadDir returns the names of a directory in increasing byte order. */
module FileNames {
  predicate Less(a: string, b: string) {
    |b| > 0 && (|a| == 0 || a[0] < b[0] || (a[0] == b[0] && Less(a[1..], b[1..])))
  }

  predicate AtMost(a: string, b: string) {
    a == b || Less(a, b)
  }

  lemma {:induction false} Total(a: string, b: string)
    ensures a == b || Less(a, b) || Less(b, a)
  {
    if |a| > 0 && |b| > 0 && a[0] == b[0] {
      Total(a[1..], b[1..]);
      assert a == [a[0]] + a[1..] && b == [b[0]] + b[1..];
    }
  }

  lemma {:induction false} Irreflexive(a: string)
    ensures !Less(a, a)
  {
    if |a| > 0 {
      Irreflexive(a[1..]);
    }
  }

  lemma {:induction false} Transitive(a: string, b: string, c: string)
    requires Less(a, b) && Less(b, c)
    ensures Less(a, c)
  {
    if |a| > 0 && a[0] == b[0] && b[0] == c[0] {
      Transitive(a[1..], b[1..], c[1..]);
    }
  }

  predicate Increasing(names: seq<string>) {
    forall i, j | 0 <= i < j < |names| :: Less(names[i], names[j])
  }

  function Names(s: seq<string>): set<string> {
    set n | n in s
  }

  /** names is what os.ReadDir returns for a directory holding exactly these files. */
  predicate Listing(names: seq<string>, files: set<string>) {
    Increasing(names) && Names(names) == files
  }

  lemma ListingDistinct(names: seq<string>, i: nat, j: nat)
    requires Increasing(names) && i < |names| && j < |names| && names[i] == names[j]
    ensures i == j
  {
    Irreflexive(names[i]);
  }

  lemma {:induction false} ListingUnique(a: seq<string>, b: seq<string>)
    requires Increasing(a) && Increasing(b) && Names(a) == Names(b)
    ensures a == b
  {
    if a == [] || b == [] {
      assert forall x: seq<string> | x != [] :: x[0] in Names(x);
    } else {
      var i, j := |a| - 1, |b| - 1;
      LastIsMax(a);
      LastIsMax(b);
      assert a[i] in Names(b) && b[j] in Names(a);
      if a[i] != b[j] {
        Transitive(a[i], b[j], a[i]);
        Irreflexive(a[i]);
        assert false;
      }
      NamesInit(a);
      NamesInit(b);
      ListingUnique(a[..i], b[..j]);
      assert a == a[..i] + [a[i]] && b == b[..j] + [b[j]];
    }
  }

  lemma LastIsMax(a: seq<string>)
    requires Increasing(a) && a != []
    ensures forall n | n in Names(a) :: AtMost(n, a[|a| - 1])
  {
  }

  lemma NamesInit(a: seq<string>)
    requires Increasing(a) && a != []
    ensures Names(a[..|a| - 1]) == Names(a) - {a[|a| - 1]}
  {
    var m := |a| - 1;
    forall i | 0 <= i < m
      ensures a[i] != a[m]
    {
      Irreflexive(a[m]);
    }
    assert forall n | n in Names(a) && n != a[m] :: n in a[..m];
  }

  /** Where a new name goes in a listing. */
  function Position(names: seq<string>, n: string): (k: nat)
    ensures k <= |names|
    ensures Increasing(names) && n !in names ==>
              (forall i | 0 <= i < k :: Less(names[i], n)) && (forall i | k <= i < |names| :: Less(n, names[i]))
  {
    if names == [] then 0
    else if Less(names[|names| - 1], n) then
      BeforeAll(names, n);
      |names|
    else
      Total(names[|names| - 1], n);
      Position(names[..|names| - 1], n)
  }

  lemma BeforeAll(names: seq<string>, n: string)
    requires names != [] && Less(names[|names| - 1], n)
    ensures Increasing(names) ==> forall i | 0 <= i < |names| :: Less(names[i], n)
  {
    if Increasing(names) {
      forall i | 0 <= i < |names| - 1
        ensures Less(names[i], n)
      {
        Transitive(names[i], names[|names| - 1], n);
      }
    }
  }

  method ReadDir(files: set<string>) returns (names: seq<string>)
    ensures Listing(names, files)
  {
    names := [];
    var todo := files;
    while todo != {}
      invariant todo <= files && Listing(names, files - todo)
      decreases |todo|
    {
      var n :| n in todo;
      assert n !in Names(names);
      var k := Position(names, n);
      Inserted(names, n, k);
      names := names[..k] + [n] + names[k..];
      todo := todo - {n};
      assert files - todo == Names(names);
    }
  }

  lemma Inserted(names: seq<string>, n: string, k: nat)
    requires k <= |names| && Increasing(names)
    requires forall i | 0 <= i < k :: Less(names[i], n)
    requires forall i | k <= i < |names| :: Less(n, names[i])
    ensures Increasing(names[..k] + [n] + names[k..])
    ensures Names(names[..k] + [n] + names[k..]) == Names(names) + {n}
  {
    var r := names[..k] + [n] + names[k..];
    assert forall m | m in Names(names) :: m in names[..k] || m in names[k..];
    forall i, j | 0 <= i < j < |r|
      ensures Less(r[i], r[j])
    {
      if i < k && j > k {
        assert r[i] == names[i] && r[j] == names[j - 1];
      } else if i < k && j < k {
        assert r[i] == names[i] && r[j] == names[j];
      } else if i > k {
        assert r[i] == names[i - 1] && r[j] == names[j - 1];
      } else if i == k {
        assert r[j] == names[j - 1];
      }
    }
  }

  // ----- the names of vault files -----

  const VAULT := "vault.age"
  const KEY := "key.age"

  predicate HexDigit(c: char) {
    '0' <= c <= '9' || 'a' <= c <= 'f'
  }

  /** The name of an item file: the hexadecimal digest of its metadata, then the extension. */
  predicate ItemFileName(n: string) {
    |n| == 68 && (forall i | 0 <= i < 64 :: HexDigit(n[i])) && n[64..] == ".age"
  }

  /** Every file that a vault directory really holds sorts no later than vault.age. */
  lemma VaultSortsLast(n: string)
    requires n == VAULT || n == KEY || ItemFileName(n)
    ensures AtMost(n, VAULT)
  {
    if ItemFileName(n) {
      assert HexDigit(n[0]) && VAULT[0] == 'v';
    }
  }
}
