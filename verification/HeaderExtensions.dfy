/** Choosing one RTP header extension per URI: deduplication to a canonical list, and lookup. */
module HeaderExtensions {
  import opened Basics
  import opened RtpExtensions
  import opened TextOrder

  datatype Filter = DiscardEncrypted | PreferEncrypted | RequireEncrypted

  // ---------------------------------------------------------------- the order of the result

  /** The order of the tuples (uri, encrypt, id). */
  predicate Less(a: RtpExtension, b: RtpExtension) {
    || TextLess(a.uri, b.uri)
    || (a.uri == b.uri && ((!a.encrypt && b.encrypt) || (a.encrypt == b.encrypt && a.id < b.id)))
  }

  lemma TotalOrder(a: RtpExtension, b: RtpExtension)
    ensures !(Less(a, b) && Less(b, a)) && (Less(a, b) || Less(b, a) || a == b) && !Less(a, a)
  {
    TextIsTotal(a.uri, b.uri);
    TextIsTotal(a.uri, a.uri);
  }

  lemma Transitive(a: RtpExtension, b: RtpExtension, c: RtpExtension)
    requires Less(a, b) && Less(b, c)
    ensures Less(a, c)
  {
    if TextLess(a.uri, b.uri) && TextLess(b.uri, c.uri) {
      TextTransitive(a.uri, b.uri, c.uri);
    }
  }

  predicate Sorted(s: seq<RtpExtension>) {
    forall i, j :: 0 <= i < j < |s| ==> Less(s[i], s[j])
  }

  predicate UniqueUris(s: seq<RtpExtension>) {
    forall i, j :: 0 <= i < j < |s| ==> s[i].uri != s[j].uri
  }

  /** std::sort, by insertion. */
  function Insert(e: RtpExtension, s: seq<RtpExtension>): seq<RtpExtension> {
    if s == [] || Less(e, s[0]) then [e] + s else [s[0]] + Insert(e, s[1..])
  }

  function Sort(s: seq<RtpExtension>): seq<RtpExtension> {
    if s == [] then [] else Insert(s[0], Sort(s[1..]))
  }

  lemma {:induction false} InsertAdds(e: RtpExtension, s: seq<RtpExtension>)
    ensures multiset(Insert(e, s)) == multiset(s) + multiset{e}
  {
    if s != [] && !Less(e, s[0]) {
      InsertAdds(e, s[1..]);
      assert s == [s[0]] + s[1..];
    }
  }

  lemma {:induction false} InsertSorts(e: RtpExtension, s: seq<RtpExtension>)
    requires Sorted(s) && forall i :: 0 <= i < |s| ==> s[i].uri != e.uri
    ensures Sorted(Insert(e, s))
  {
    if s != [] && Less(e, s[0]) {
      forall j | 1 <= j < |s|
        ensures Less(e, s[j])
      {
        Transitive(e, s[0], s[j]);
      }
    } else if s != [] {
      var rest := Insert(e, s[1..]);
      InsertSorts(e, s[1..]);
      InsertAdds(e, s[1..]);
      TotalOrder(e, s[0]);
      forall j | 0 <= j < |rest|
        ensures Less(s[0], rest[j])
      {
        assert rest[j] in multiset(rest);
        assert rest[j] == e || rest[j] in s[1..];
      }
    }
  }

  lemma {:induction false} SortPermutes(s: seq<RtpExtension>)
    ensures multiset(Sort(s)) == multiset(s)
  {
    if s == [] {
    } else {
      SortPermutes(s[1..]);
      InsertAdds(s[0], Sort(s[1..]));
      assert s == [s[0]] + s[1..];
    }
  }

  lemma {:induction false} SortSorts(s: seq<RtpExtension>)
    requires UniqueUris(s)
    ensures Sorted(Sort(s))
  {
    if s == [] {
    } else {
      var rest := Sort(s[1..]);
      SortSorts(s[1..]);
      SortPermutes(s[1..]);
      forall i | 0 <= i < |rest|
        ensures rest[i].uri != s[0].uri
      {
        assert rest[i] in multiset(rest);
        assert rest[i] in s[1..];
      }
      InsertSorts(s[0], rest);
    }
  }

  /** A sorted list is determined by its members. */
  lemma {:induction false} SortedUnique(a: seq<RtpExtension>, b: seq<RtpExtension>)
    requires Sorted(a) && Sorted(b)
    requires forall x :: x in a <==> x in b
    ensures a == b
  {
    if a != [] {
      assert a[0] in b;
    }
    if b != [] {
      assert b[0] in a;
    }
    if a == [] {
    } else {
      TotalOrder(a[0], b[0]);
      assert a[0] == b[0];
      forall x
        ensures x in a[1..] <==> x in b[1..]
      {
        TotalOrder(a[0], a[0]);
        assert x in a[1..] <==> x in a && x != a[0];
        assert x in b[1..] <==> x in b && x != b[0];
      }
      SortedUnique(a[1..], b[1..]);
    }
  }

  // ---------------------------------------------------------------- what should be kept

  predicate Matches(e: RtpExtension, uri: string, encrypt: bool) {
    e.uri == uri && e.encrypt == encrypt
  }

  function First(xs: seq<RtpExtension>, uri: string, encrypt: bool): Option<RtpExtension> {
    if xs == [] then None
    else if Matches(xs[0], uri, encrypt) then Some(xs[0])
    else First(xs[1..], uri, encrypt)
  }

  function Last(xs: seq<RtpExtension>, uri: string, encrypt: bool): Option<RtpExtension> {
    if xs == [] then None
    else if Matches(xs[|xs| - 1], uri, encrypt) then Some(xs[|xs| - 1])
    else Last(xs[..|xs| - 1], uri, encrypt)
  }

  /** The entry a filter selects for a URI: the first encrypted one unless those are discarded, otherwise the first
      unencrypted one unless encryption is required. */
  function Kept(xs: seq<RtpExtension>, uri: string, f: Filter): Option<RtpExtension> {
    if !f.DiscardEncrypted? && First(xs, uri, true).Some? then First(xs, uri, true)
    else if !f.RequireEncrypted? then First(xs, uri, false)
    else None
  }

  lemma {:induction false} FirstMatches(xs: seq<RtpExtension>, uri: string, encrypt: bool)
    ensures First(xs, uri, encrypt).Some? ==>
              First(xs, uri, encrypt).value in xs && Matches(First(xs, uri, encrypt).value, uri, encrypt)
    ensures First(xs, uri, encrypt).None? ==> forall e :: e in xs ==> !Matches(e, uri, encrypt)
  {
    if xs == [] {
    } else {
      FirstMatches(xs[1..], uri, encrypt);
      assert forall e :: e in xs ==> e == xs[0] || e in xs[1..];
    }
  }

  /** First is at the lowest matching position, Last at the highest. */
  lemma {:induction false} FirstIsAtTheLowestPosition(xs: seq<RtpExtension>, uri: string, encrypt: bool, i: nat)
    requires i < |xs| && Matches(xs[i], uri, encrypt)
    requires forall j :: 0 <= j < i ==> !Matches(xs[j], uri, encrypt)
    ensures First(xs, uri, encrypt) == Some(xs[i])
  {
    if i == 0 {
    } else {
      assert !Matches(xs[0], uri, encrypt);
      FirstIsAtTheLowestPosition(xs[1..], uri, encrypt, i - 1);
    }
  }

  lemma {:induction false} LastIsAtTheHighestPosition(xs: seq<RtpExtension>, uri: string, encrypt: bool, i: nat)
    requires i < |xs| && Matches(xs[i], uri, encrypt)
    requires forall j :: i < j < |xs| ==> !Matches(xs[j], uri, encrypt)
    ensures Last(xs, uri, encrypt) == Some(xs[i])
  {
    var last := |xs| - 1;
    if i == last {
    } else {
      assert !Matches(xs[last], uri, encrypt);
      LastIsAtTheHighestPosition(xs[..last], uri, encrypt, i);
    }
  }

  // ---------------------------------------------------------------- the filtering loops

  predicate UriExists(xs: seq<RtpExtension>, uri: string) {
    exists i :: 0 <= i < |xs| && xs[i].uri == uri
  }

  function AddOne(filtered: seq<RtpExtension>, e: RtpExtension, encrypt: bool): seq<RtpExtension> {
    if e.encrypt == encrypt && !UriExists(filtered, e.uri) then filtered + [e] else filtered
  }

  /** One pass: append the entries of one kind whose URI is still missing. */
  function AddMissing(filtered: seq<RtpExtension>, xs: seq<RtpExtension>, encrypt: bool): seq<RtpExtension>
    decreases xs
  {
    if xs == [] then filtered else AddMissing(AddOne(filtered, xs[0], encrypt), xs[1..], encrypt)
  }

  function Filtered(xs: seq<RtpExtension>, f: Filter): seq<RtpExtension> {
    var encrypted := if f.DiscardEncrypted? then [] else AddMissing([], xs, true);
    if f.RequireEncrypted? then encrypted else AddMissing(encrypted, xs, false)
  }

  function Deduplicate(xs: seq<RtpExtension>, f: Filter): seq<RtpExtension> {
    Sort(Filtered(xs, f))
  }

  /** A pass adds, for every URI it finds missing, the first entry of its kind. */
  lemma {:induction false} AddMissingAddsFirsts(
    filtered: seq<RtpExtension>, xs: seq<RtpExtension>, encrypt: bool, e: RtpExtension)
    requires UniqueUris(filtered)
    ensures UniqueUris(AddMissing(filtered, xs, encrypt))
    ensures e in AddMissing(filtered, xs, encrypt) <==>
            e in filtered || (!UriExists(filtered, e.uri) && First(xs, e.uri, encrypt) == Some(e))
    decreases xs
  {
    if xs == [] {
    } else {
      var filtered' := AddOne(filtered, xs[0], encrypt);
      AddMissingAddsFirsts(filtered', xs[1..], encrypt, e);
      FirstMatches(xs[1..], e.uri, encrypt);
      UriExistsAfter(filtered, xs[0], e.uri);
    }
  }

  lemma UriExistsAfter(filtered: seq<RtpExtension>, e: RtpExtension, uri: string)
    ensures UriExists(filtered + [e], uri) <==> UriExists(filtered, uri) || e.uri == uri
  {
    assert (filtered + [e])[|filtered|] == e;
    if UriExists(filtered, uri) {
      var i :| 0 <= i < |filtered| && filtered[i].uri == uri;
      assert (filtered + [e])[i].uri == uri;
    }
  }

  /** The filtered list holds, for every URI, exactly the entry to be kept. */
  lemma FilteredKeeps(xs: seq<RtpExtension>, f: Filter, e: RtpExtension)
    ensures UniqueUris(Filtered(xs, f))
    ensures e in Filtered(xs, f) <==> Kept(xs, e.uri, f) == Some(e)
  {
    var encrypted := if f.DiscardEncrypted? then [] else AddMissing([], xs, true);
    AddMissingAddsFirsts([], xs, true, e);
    FirstMatches(xs, e.uri, true);
    FirstMatches(xs, e.uri, false);
    AddMissingAddsFirsts(encrypted, xs, false, e);
    EncryptedUris(xs, e.uri);
  }

  lemma EncryptedUris(xs: seq<RtpExtension>, uri: string)
    ensures UriExists(AddMissing([], xs, true), uri) <==> First(xs, uri, true).Some?
  {
    var encrypted := AddMissing([], xs, true);
    FirstMatches(xs, uri, true);
    if First(xs, uri, true).Some? {
      var e := First(xs, uri, true).value;
      AddMissingAddsFirsts([], xs, true, e);
      var i :| 0 <= i < |encrypted| && encrypted[i] == e;
      assert UriExists(encrypted, uri);
    }
    if UriExists(encrypted, uri) {
      var i :| 0 <= i < |encrypted| && encrypted[i].uri == uri;
      AddMissingAddsFirsts([], xs, true, encrypted[i]);
    }
  }

  // ---------------------------------------------------------------- deduplication is canonical

  /** One entry per URI, the one the filter selects, in order. */
  lemma DeduplicateKeepsOnePerUri(xs: seq<RtpExtension>, f: Filter)
    ensures Sorted(Deduplicate(xs, f)) && UniqueUris(Deduplicate(xs, f))
    ensures forall e :: e in Deduplicate(xs, f) <==> Kept(xs, e.uri, f) == Some(e)
  {
    var filtered := Filtered(xs, f);
    forall e
      ensures UniqueUris(filtered) && (e in filtered <==> Kept(xs, e.uri, f) == Some(e))
    {
      FilteredKeeps(xs, f, e);
    }
    FilteredKeeps(xs, f, RtpExtension("", 0, false));
    SortSorts(filtered);
    SortPermutes(filtered);
    var s := Deduplicate(xs, f);
    assert forall e :: e in s <==> e in multiset(s);
    assert forall e :: e in filtered <==> e in multiset(filtered);
    forall i, j | 0 <= i < j < |s|
      ensures s[i].uri != s[j].uri
    {
      assert s[i] in s && s[j] in s;
      TotalOrder(s[i], s[j]);
    }
  }

  /** Lists that keep the same entries deduplicate to the same list. */
  lemma SameKeptSameResult(xs: seq<RtpExtension>, ys: seq<RtpExtension>, f: Filter)
    requires forall uri :: Kept(xs, uri, f) == Kept(ys, uri, f)
    ensures Deduplicate(xs, f) == Deduplicate(ys, f)
  {
    DeduplicateKeepsOnePerUri(xs, f);
    DeduplicateKeepsOnePerUri(ys, f);
    SortedUnique(Deduplicate(xs, f), Deduplicate(ys, f));
  }

  /** In the result, every URI selects the entry it selected before. */
  lemma KeptInResult(xs: seq<RtpExtension>, f: Filter, uri: string)
    ensures Kept(Deduplicate(xs, f), uri, f) == Kept(xs, uri, f)
  {
    var s := Deduplicate(xs, f);
    DeduplicateKeepsOnePerUri(xs, f);
    FirstMatches(s, uri, true);
    FirstMatches(s, uri, false);
    FirstMatches(xs, uri, true);
    FirstMatches(xs, uri, false);
    if Kept(xs, uri, f).Some? {
      assert Kept(xs, uri, f).value in s;
    }
    if Kept(s, uri, f).Some? {
      assert Kept(s, uri, f).value in s;
    }
  }

  lemma DeduplicateTwiceChangesNothing(xs: seq<RtpExtension>, f: Filter)
    ensures Deduplicate(Deduplicate(xs, f), f) == Deduplicate(xs, f)
  {
    forall uri
      ensures Kept(Deduplicate(xs, f), uri, f) == Kept(xs, uri, f)
    {
      KeptInResult(xs, f, uri);
    }
    SameKeptSameResult(Deduplicate(xs, f), xs, f);
  }

  // ---------------------------------------------------------------- exactly when the order of the input matters not

  /** Entries of the kind the filter selects for their URI. */
  predicate Selectable(xs: seq<RtpExtension>, e: RtpExtension, f: Filter) {
    if e.encrypt then !f.DiscardEncrypted?
    else !f.RequireEncrypted? && (f.DiscardEncrypted? || First(xs, e.uri, true).None?)
  }

  /** No URI has selectable entries with different ids. */
  predicate Unambiguous(xs: seq<RtpExtension>, f: Filter) {
    forall a, b :: a in xs && b in xs && Matches(a, b.uri, b.encrypt) && Selectable(xs, b, f) ==> a == b
  }

  ghost predicate OrderIndependent(xs: seq<RtpExtension>, f: Filter) {
    forall ys :: multiset(ys) == multiset(xs) ==> Deduplicate(ys, f) == Deduplicate(xs, f)
  }

  /** Same members, same URIs with an entry of a kind. */
  lemma FirstExistsForPermutation(xs: seq<RtpExtension>, ys: seq<RtpExtension>, uri: string, encrypt: bool)
    requires forall e :: e in ys <==> e in xs
    ensures First(ys, uri, encrypt).Some? <==> First(xs, uri, encrypt).Some?
  {
    FirstMatches(xs, uri, encrypt);
    FirstMatches(ys, uri, encrypt);
  }

  lemma UnambiguousSuffices(xs: seq<RtpExtension>, ys: seq<RtpExtension>, f: Filter)
    requires Unambiguous(xs, f) && multiset(ys) == multiset(xs)
    ensures Deduplicate(ys, f) == Deduplicate(xs, f)
  {
    forall e
      ensures e in ys <==> e in xs
    {
      assert e in ys <==> e in multiset(ys);
      assert e in xs <==> e in multiset(xs);
    }
    forall uri
      ensures Kept(ys, uri, f) == Kept(xs, uri, f)
    {
      FirstExistsForPermutation(xs, ys, uri, true);
      FirstExistsForPermutation(xs, ys, uri, false);
      FirstMatches(xs, uri, true);
      FirstMatches(xs, uri, false);
      FirstMatches(ys, uri, true);
      FirstMatches(ys, uri, false);
      if Kept(xs, uri, f).Some? {
        assert Selectable(xs, Kept(xs, uri, f).value, f);
        assert Kept(ys, uri, f).value == Kept(xs, uri, f).value;
      }
    }
    SameKeptSameResult(ys, xs, f);
  }

  /** Moving a selectable entry to the front makes it the one to be kept. */
  lemma FrontIsKept(xs: seq<RtpExtension>, k: nat, f: Filter) returns (ys: seq<RtpExtension>)
    requires k < |xs| && Selectable(xs, xs[k], f)
    ensures multiset(ys) == multiset(xs) && Kept(ys, xs[k].uri, f) == Some(xs[k])
  {
    var e := xs[k];
    ys := [e] + (xs[..k] + xs[k + 1..]);
    assert xs == xs[..k] + ([e] + xs[k + 1..]);
    forall x
      ensures x in ys <==> x in xs
    {
      assert x in xs <==> x in multiset(xs);
      assert x in ys <==> x in multiset(ys);
    }
    FirstExistsForPermutation(xs, ys, e.uri, true);
  }

  lemma UnambiguousIsNecessary(xs: seq<RtpExtension>, f: Filter)
    requires OrderIndependent(xs, f)
    ensures Unambiguous(xs, f)
  {
    forall a, b | a in xs && b in xs && Matches(a, b.uri, b.encrypt) && Selectable(xs, b, f)
      ensures a == b
    {
      var i :| 0 <= i < |xs| && xs[i] == a;
      var j :| 0 <= j < |xs| && xs[j] == b;
      var ys := FrontIsKept(xs, i, f);
      var zs := FrontIsKept(xs, j, f);
      assert Deduplicate(ys, f) == Deduplicate(zs, f);
      KeptInResult(ys, f, b.uri);
      KeptInResult(zs, f, b.uri);
    }
  }

  /** The result is the same for every order of the input exactly if no URI has selectable entries with different ids.
      */
  lemma OrderIndependentExactlyWhen(xs: seq<RtpExtension>, f: Filter)
    ensures OrderIndependent(xs, f) <==> Unambiguous(xs, f)
  {
    if Unambiguous(xs, f) {
      forall ys | multiset(ys) == multiset(xs)
        ensures Deduplicate(ys, f) == Deduplicate(xs, f)
      {
        UnambiguousSuffices(xs, ys, f);
      }
    }
    if OrderIndependent(xs, f) {
      UnambiguousIsNecessary(xs, f);
    }
  }

  // ---------------------------------------------------------------- lookup

  /** What FindHeaderExtensionByUri returns: where encryption is preferred, the fallback is the last unencrypted entry.
      */
  function Found(xs: seq<RtpExtension>, uri: string, f: Filter): Option<RtpExtension> {
    match f
    case DiscardEncrypted => First(xs, uri, false)
    case RequireEncrypted => First(xs, uri, true)
    case PreferEncrypted => if First(xs, uri, true).Some? then First(xs, uri, true) else Last(xs, uri, false)
  }

  lemma {:induction false} LastMatches(xs: seq<RtpExtension>, uri: string, encrypt: bool)
    ensures Last(xs, uri, encrypt).Some? ==>
              Last(xs, uri, encrypt).value in xs && Matches(Last(xs, uri, encrypt).value, uri, encrypt)
    ensures Last(xs, uri, encrypt).None? ==> forall e :: e in xs ==> !Matches(e, uri, encrypt)
  {
    if xs == [] {
    } else {
      var front := xs[..|xs| - 1];
      LastMatches(front, uri, encrypt);
      assert forall e :: e in xs ==> e == xs[|xs| - 1] || e in front;
    }
  }

  /** Lookup in the deduplicated list always agrees with lookup of what was kept. */
  lemma LookupInResult(xs: seq<RtpExtension>, uri: string, f: Filter)
    ensures Found(Deduplicate(xs, f), uri, f) == Kept(xs, uri, f)
  {
    var s := Deduplicate(xs, f);
    DeduplicateKeepsOnePerUri(xs, f);
    KeptInResult(xs, f, uri);
    FirstMatches(s, uri, false);
    LastMatches(s, uri, false);
    forall a, b | a in s && b in s && a.uri == b.uri
      ensures a == b
    {
      var i :| 0 <= i < |s| && s[i] == a;
      var j :| 0 <= j < |s| && s[j] == b;
    }
  }

  /** Deduplicating first makes no difference to a lookup, except where encryption is preferred, the URI has no
      encrypted entry, and its first and last unencrypted entries differ. */
  lemma LookupAgreesExactlyWhen(xs: seq<RtpExtension>, uri: string, f: Filter)
    ensures Found(xs, uri, f) == Found(Deduplicate(xs, f), uri, f) <==>
            !f.PreferEncrypted? || First(xs, uri, true).Some? || First(xs, uri, false) == Last(xs, uri, false)
  {
    LookupInResult(xs, uri, f);
  }

  /** Two unencrypted entries for one URI: deduplication keeps the first, lookup falls back to the last. */
  lemma FallbackTakesTheLast()
    ensures var xs := [RtpExtension("u", 1, false), RtpExtension("u", 2, false)];
            && Found(Deduplicate(xs, PreferEncrypted), "u", PreferEncrypted) == Some(xs[0])
            && Found(xs, "u", PreferEncrypted) == Some(xs[1])
  {
    var xs := [RtpExtension("u", 1, false), RtpExtension("u", 2, false)];
    assert xs[1..] == [xs[1]] && xs[1..][1..] == [];
    LookupInResult(xs, "u", PreferEncrypted);
  }

  // ---------------------------------------------------------------- the methods

  method HeaderExtensionWithUriExists(extensions: seq<RtpExtension>, uri: string) returns (found: bool)
    ensures found == UriExists(extensions, uri)
  {
    for n := 0 to |extensions|
      invariant forall i :: 0 <= i < n ==> extensions[i].uri != uri
    {
      if extensions[n].uri == uri {
        return true;
      }
    }
    found := false;
  }

  method FindHeaderExtensionByUriAndEncryption(extensions: seq<RtpExtension>, uri: string, encrypt: bool)
    returns (found: Option<RtpExtension>)
    ensures found == First(extensions, uri, encrypt)
  {
    for n := 0 to |extensions|
      invariant First(extensions, uri, encrypt) == First(extensions[n..], uri, encrypt)
    {
      if extensions[n].uri == uri && extensions[n].encrypt == encrypt {
        return Some(extensions[n]);
      }
    }
    found := None;
  }

  method FindHeaderExtensionByUri(extensions: seq<RtpExtension>, uri: string, filter: Filter)
    returns (found: Option<RtpExtension>)
    ensures found == Found(extensions, uri, filter)
  {
    var fallback: Option<RtpExtension> := None;
    for n := 0 to |extensions|
      invariant !filter.DiscardEncrypted? ==> First(extensions, uri, true) == First(extensions[n..], uri, true)
      invariant filter.DiscardEncrypted? ==> First(extensions, uri, false) == First(extensions[n..], uri, false)
      invariant fallback == if filter.PreferEncrypted? then Last(extensions[..n], uri, false) else None
    {
      var extension := extensions[n];
      assert extensions[..n + 1][..n] == extensions[..n];
      if extension.uri != uri {
        continue;
      }
      match filter
      case DiscardEncrypted =>
        if !extension.encrypt {
          return Some(extension);
        }
      case PreferEncrypted =>
        if extension.encrypt {
          return Some(extension);
        } else {
          fallback := Some(extension);
        }
      case RequireEncrypted =>
        if extension.encrypt {
          return Some(extension);
        }
    }
    assert extensions[..|extensions|] == extensions;
    found := fallback;
  }

  /** One of the two loops of DeduplicateHeaderExtensions. */
  method AddMissingOfKind(filtered: seq<RtpExtension>, extensions: seq<RtpExtension>, encrypt: bool)
    returns (filtered': seq<RtpExtension>)
    ensures filtered' == AddMissing(filtered, extensions, encrypt)
  {
    filtered' := filtered;
    for n := 0 to |extensions|
      invariant AddMissing(filtered', extensions[n..], encrypt) == AddMissing(filtered, extensions, encrypt)
    {
      assert extensions[n..][1..] == extensions[n + 1..];
      if extensions[n].encrypt != encrypt {
        continue;
      }
      var exists' := HeaderExtensionWithUriExists(filtered', extensions[n].uri);
      if !exists' {
        filtered' := filtered' + [extensions[n]];
      }
    }
  }

  method DeduplicateHeaderExtensions(extensions: seq<RtpExtension>, filter: Filter) returns (result: seq<RtpExtension>)
    ensures result == Deduplicate(extensions, filter)
  {
    var filtered: seq<RtpExtension> := [];
    if !filter.DiscardEncrypted? {
      filtered := AddMissingOfKind(filtered, extensions, true);
    }
    if !filter.RequireEncrypted? {
      filtered := AddMissingOfKind(filtered, extensions, false);
    }
    result := Sort(filtered);
  }
}
