/**
 * The address-book manager of `address_book_manager.py`: named books of
 * contacts keyed by id, merging two books into a new one, finding contacts
 * that share a phone or an email, and comparing the ids of two books.
 * A contact is a dictionary of text fields; the clock is a parameter.
 */
module AddressBooks {
  import opened Wrappers
  import opened Text
  import opened Seqs

  /** A contact's data: `name`, `phone`, `email`, `last_modified`, ... */
  type Contact = map<string, string>

  /** `contact_data.get(key, '')`. */
  function Get(c: Contact, key: string): string {
    if key in c then c[key] else ""
  }

  ghost predicate DistinctIds(ids: seq<string>) {
    forall i, j :: 0 <= i < j < |ids| ==> ids[i] != ids[j]
  }

  /** Distinct ids are as many as the set they form. */
  lemma {:induction false} DistinctCard(ids: seq<string>, keys: set<string>)
    requires DistinctIds(ids)
    requires forall k :: k in keys <==> k in ids
    ensures |ids| == |keys|
  {
    if ids != [] {
      var init := ids[..|ids| - 1];
      var last := ids[|ids| - 1];
      assert forall k :: k in init ==> k in ids && k != last;
      assert forall k :: k in keys - {last} <==> k in init by {
        forall k ensures k in keys - {last} <==> k in init {
          if k in ids && k != last {
            var i :| 0 <= i < |ids| && ids[i] == k;
            assert i < |ids| - 1 && init[i] == k;
          }
        }
      }
      DistinctCard(init, keys - {last});
    }
  }

  function IsNot(id: string): string -> bool {
    (x: string) => x != id
  }

  class AddressBook {
    var name: string
    /** The contact ids in insertion order, which Python's dict keeps. */
    var ids: seq<string>
    var contacts: map<string, Contact>
    var createdAt: string
    var lastModified: string

    ghost predicate Valid()
      reads this
    {
      (forall k :: k in contacts <==> k in ids) && DistinctIds(ids)
    }

    constructor(name: string, now: string)
      ensures Valid() && this.name == name && ids == [] && contacts == map[]
      ensures createdAt == now && lastModified == now
    {
      this.name, ids, contacts := name, [], map[];
      createdAt, lastModified := now, now;
    }

    method AddContact(id: string, data: Contact, now: string) returns (ok: bool)
      requires Valid()
      modifies this
      ensures Valid() && name == old(name) && createdAt == old(createdAt)
      ensures ok <==> id !in old(contacts)
      ensures ok ==> contacts == old(contacts)[id := data] && ids == old(ids) + [id] && lastModified == now
      ensures !ok ==> contacts == old(contacts) && ids == old(ids) && lastModified == old(lastModified)
    {
      if id in contacts {
        return false;
      }
      contacts := contacts[id := data];
      ids := ids + [id];
      lastModified := now;
      return true;
    }

    method RemoveContact(id: string, now: string) returns (ok: bool)
      requires Valid()
      modifies this
      ensures Valid() && name == old(name) && createdAt == old(createdAt)
      ensures ok <==> id in old(contacts)
      ensures contacts == old(contacts) - {id}
      ensures ids == Filter(IsNot(id), old(ids))
      ensures lastModified == if ok then now else old(lastModified)
    {
      if id !in contacts {
        assert Filter(IsNot(id), ids) == ids by {
          FilterAll(IsNot(id), ids);
        }
        return false;
      }
      var kept := Filter(IsNot(id), ids);
      FilterKeeps(ids, id);
      contacts := contacts - {id};
      ids := kept;
      lastModified := now;
      return true;
    }

    /** `get_contact_count`: as many as the ids listed. */
    function Count(): (n: nat)
      reads this
      requires Valid()
      ensures n == |ids| && n == |contacts|
    {
      DistinctCard(ids, contacts.Keys);
      |contacts|
    }
  }

  /** Removing an id keeps the other ids, in order and still distinct. */
  lemma {:induction false} FilterKeeps(ids: seq<string>, id: string)
    requires DistinctIds(ids)
    ensures forall k :: k in Filter(IsNot(id), ids) <==> k in ids && k != id
    ensures DistinctIds(Filter(IsNot(id), ids))
  {
    if ids != [] {
      var rest := ids[1..];
      assert forall j :: 0 <= j < |rest| ==> rest[j] == ids[j + 1];
      FilterKeeps(rest, id);
      var r := Filter(IsNot(id), ids);
      var head := if ids[0] != id then [ids[0]] else [];
      assert r == head + Filter(IsNot(id), rest);
      assert ids[0] !in rest;
    }
  }

  // ---------------------------------------------------------------------
  // Merging

  /** book2's copy of a shared contact wins only when its `last_modified` is strictly later. */
  predicate Newer(c2: Contact, c1: Contact) {
    LexLess(Get(c1, "last_modified"), Get(c2, "last_modified"))
  }

  /** The contacts of a merge of `c1` with the contacts of `c2` whose ids are in `s`. */
  function MergedOn(c1: map<string, Contact>, c2: map<string, Contact>, s: set<string>): map<string, Contact>
    requires s <= c2.Keys
  {
    map k | k in c1.Keys + s :: if k in s && (k !in c1 || Newer(c2[k], c1[k])) then c2[k] else c1[k]
  }

  /** The contacts of the merge of two whole books. */
  function Merged(c1: map<string, Contact>, c2: map<string, Contact>): map<string, Contact> {
    MergedOn(c1, c2, c2.Keys)
  }

  function Elems(xs: seq<string>): set<string> {
    set k | k in xs
  }

  /** The ids of a longer prefix of a list of distinct ids. */
  lemma ElemsStep(xs: seq<string>, j: nat)
    requires DistinctIds(xs) && j < |xs|
    ensures Elems(xs[..j + 1]) == Elems(xs[..j]) + {xs[j]} && xs[j] !in Elems(xs[..j])
  {
    assert xs[..j + 1] == xs[..j] + [xs[j]];
    forall i | 0 <= i < j ensures xs[..j][i] != xs[j] {
      assert xs[..j][i] == xs[i];
    }
  }

  /** One more id of book2, absorbed as one step of the second merge loop does. */
  lemma MergedOnStep(c1: map<string, Contact>, c2: map<string, Contact>, s: set<string>, id: string)
    requires s <= c2.Keys && id in c2 && id !in s
    ensures
      var m := MergedOn(c1, c2, s);
      MergedOn(c1, c2, s + {id})
        == if id !in m || LexLess(Get(m[id], "last_modified"), Get(c2[id], "last_modified")) then m[id := c2[id]] else m
    ensures id in MergedOn(c1, c2, s) <==> id in c1
  {
    var m := MergedOn(c1, c2, s);
    var m' := MergedOn(c1, c2, s + {id});
    var r := if id !in m || Newer(c2[id], m[id]) then m[id := c2[id]] else m;
    assert m'.Keys == r.Keys;
    forall k | k in r ensures m'[k] == r[k] {
      if k != id {
        assert m'[k] == m[k];
      }
    }
  }

  /** The merged ids are those of either book, and the entries follow the last-modified rule. */
  lemma MergedEntries(c1: map<string, Contact>, c2: map<string, Contact>)
    ensures Merged(c1, c2).Keys == c1.Keys + c2.Keys
    ensures forall k :: k in c1 && k !in c2 ==> Merged(c1, c2)[k] == c1[k]
    ensures forall k :: k in c2 && k !in c1 ==> Merged(c1, c2)[k] == c2[k]
    ensures forall k :: k in c1 && k in c2 ==>
      Merged(c1, c2)[k] == if LexLess(Get(c1[k], "last_modified"), Get(c2[k], "last_modified")) then c2[k] else c1[k]
  {
  }

  /** Merging a book with itself gives back its contacts. */
  lemma MergeSelf(c: map<string, Contact>)
    ensures Merged(c, c) == c
  {
    forall k | k in c ensures Merged(c, c)[k] == c[k] {
      LexLessIrreflexive(Get(c[k], "last_modified"));
    }
  }

  /**
   * When no shared contact has two different `last_modified` values the
   * merge does not depend on which book comes first.
   */
  lemma MergeSymmetric(c1: map<string, Contact>, c2: map<string, Contact>)
    requires forall k :: k in c1 && k in c2 ==> c1[k] == c2[k]
    ensures Merged(c1, c2) == Merged(c2, c1)
  {
    forall k | k in c1 && k in c2 ensures Merged(c1, c2)[k] == Merged(c2, c1)[k] {
      LexLessIrreflexive(Get(c1[k], "last_modified"));
    }
  }

  function NotIn(c: map<string, Contact>): string -> bool {
    (x: string) => x !in c
  }

  /** The merged ids gain `ids2[j]` exactly when book1 does not hold it. */
  lemma MergedIdsStep(ids1: seq<string>, c1: map<string, Contact>, ids2: seq<string>, j: nat)
    requires j < |ids2|
    ensures ids1 + Filter(NotIn(c1), ids2[..j + 1])
      == if ids2[j] in c1 then ids1 + Filter(NotIn(c1), ids2[..j]) else ids1 + Filter(NotIn(c1), ids2[..j]) + [ids2[j]]
  {
    FilterPrefix(NotIn(c1), ids2, j);
  }

  // ---------------------------------------------------------------------
  // Duplicates

  /** `seen` after meeting value `v` at `id`: only the first id of a non-empty value is kept. */
  function Record(seen: map<string, string>, v: string, id: string): map<string, string> {
    if v == "" || v in seen then seen else seen[v := id]
  }

  /** For each non-empty value of `key`, the first id (of `ids`) holding it. */
  function Seen(ids: seq<string>, contacts: map<string, Contact>, key: string): map<string, string>
    requires forall i :: 0 <= i < |ids| ==> ids[i] in contacts
  {
    if ids == [] then map[]
    else
      var init := ids[..|ids| - 1];
      var id := ids[|ids| - 1];
      Record(Seen(init, contacts, key), Get(contacts[id], key), id)
  }

  /** Each value seen is non-empty, and it was seen at an id holding it. */
  lemma {:induction false} SeenSound(ids: seq<string>, contacts: map<string, Contact>, key: string)
    requires forall i :: 0 <= i < |ids| ==> ids[i] in contacts
    ensures forall v :: v in Seen(ids, contacts, key) ==>
      v != "" && Seen(ids, contacts, key)[v] in ids && Get(contacts[Seen(ids, contacts, key)[v]], key) == v
  {
    if ids != [] {
      var init := ids[..|ids| - 1];
      assert forall i :: 0 <= i < |init| ==> init[i] == ids[i];
      SeenSound(init, contacts, key);
    }
  }

  /** The pair reported for `id` on `key`, given the ids before it. */
  function PairFor(init: seq<string>, id: string, contacts: map<string, Contact>, key: string): seq<seq<string>>
    requires forall i :: 0 <= i < |init| ==> init[i] in contacts
    requires id in contacts
  {
    var v := Get(contacts[id], key);
    var seen := Seen(init, contacts, key);
    if v != "" && v in seen then [[seen[v], id]] else []
  }

  /** What `find_duplicates` reports for a book whose ids are `ids`. */
  function Duplicates(ids: seq<string>, contacts: map<string, Contact>): seq<seq<string>>
    requires forall i :: 0 <= i < |ids| ==> ids[i] in contacts
  {
    if ids == [] then []
    else
      var init := ids[..|ids| - 1];
      var id := ids[|ids| - 1];
      Duplicates(init, contacts) + PairFor(init, id, contacts, "phone") + PairFor(init, id, contacts, "email")
  }

  /** One more id extends the seen maps and the reported pairs as one loop step does. */
  lemma DuplicatesStep(ids: seq<string>, n: nat, contacts: map<string, Contact>)
    requires forall i :: 0 <= i < |ids| ==> ids[i] in contacts
    requires n < |ids|
    ensures Seen(ids[..n + 1], contacts, "phone") == Record(Seen(ids[..n], contacts, "phone"), Get(contacts[ids[n]], "phone"), ids[n])
    ensures Seen(ids[..n + 1], contacts, "email") == Record(Seen(ids[..n], contacts, "email"), Get(contacts[ids[n]], "email"), ids[n])
    ensures Duplicates(ids[..n + 1], contacts)
      == Duplicates(ids[..n], contacts) + PairFor(ids[..n], ids[n], contacts, "phone") + PairFor(ids[..n], ids[n], contacts, "email")
  {
    assert ids[..n + 1][..n] == ids[..n];
  }

  /** Two different contacts share a non-empty phone or a non-empty email. */
  predicate SameContactData(contacts: map<string, Contact>, a: string, b: string)
    requires a in contacts && b in contacts
  {
    (Get(contacts[a], "phone") != "" && Get(contacts[a], "phone") == Get(contacts[b], "phone"))
    || (Get(contacts[a], "email") != "" && Get(contacts[a], "email") == Get(contacts[b], "email"))
  }

  /** `p` names two ids of the book, the first listed before the second, which share a phone or an email. */
  ghost predicate IsDuplicatePair(ids: seq<string>, contacts: map<string, Contact>, p: seq<string>) {
    |p| == 2 && p[0] in contacts && p[1] in contacts && SameContactData(contacts, p[0], p[1])
    && exists i, j :: 0 <= i < j < |ids| && ids[i] == p[0] && ids[j] == p[1]
  }

  lemma DuplicatePairGrows(ids: seq<string>, id: string, contacts: map<string, Contact>, p: seq<string>)
    requires IsDuplicatePair(ids, contacts, p)
    ensures IsDuplicatePair(ids + [id], contacts, p)
  {
    var i, j :| 0 <= i < j < |ids| && ids[i] == p[0] && ids[j] == p[1];
    assert (ids + [id])[i] == p[0] && (ids + [id])[j] == p[1];
  }

  /** The pair reported for the last id, if any, is a genuine duplicate. */
  lemma PairForIsDuplicate(init: seq<string>, id: string, contacts: map<string, Contact>, key: string)
    requires forall i :: 0 <= i < |init| ==> init[i] in contacts
    requires id in contacts && (key == "phone" || key == "email")
    ensures forall p :: p in PairFor(init, id, contacts, key) ==> IsDuplicatePair(init + [id], contacts, p)
  {
    var seen := Seen(init, contacts, key);
    var v := Get(contacts[id], key);
    SeenSound(init, contacts, key);
    if v != "" && v in seen {
      var i :| 0 <= i < |init| && init[i] == seen[v];
      assert (init + [id])[i] == seen[v] && (init + [id])[|init|] == id;
    }
  }

  /** Every pair `find_duplicates` reports is a genuine duplicate. */
  lemma {:induction false} DuplicatesShareData(ids: seq<string>, contacts: map<string, Contact>)
    requires forall i :: 0 <= i < |ids| ==> ids[i] in contacts
    ensures forall k :: 0 <= k < |Duplicates(ids, contacts)| ==> IsDuplicatePair(ids, contacts, Duplicates(ids, contacts)[k])
  {
    if ids != [] {
      var init := ids[..|ids| - 1];
      var id := ids[|ids| - 1];
      assert ids == init + [id];
      DuplicatesShareData(init, contacts);
      var before := Duplicates(init, contacts);
      var phones := PairFor(init, id, contacts, "phone");
      var emails := PairFor(init, id, contacts, "email");
      PairForIsDuplicate(init, id, contacts, "phone");
      PairForIsDuplicate(init, id, contacts, "email");
      var all := Duplicates(ids, contacts);
      assert all == before + phones + emails;
      forall k | 0 <= k < |all| ensures IsDuplicatePair(ids, contacts, all[k]) {
        if k < |before| {
          DuplicatePairGrows(init, id, contacts, before[k]);
        } else if k < |before| + |phones| {
          assert all[k] in phones;
        } else {
          assert all[k] in emails;
        }
      }
    }
  }


  /** A non-empty value is seen at the first id holding it. */
  lemma {:induction false} SeenFirst(ids: seq<string>, contacts: map<string, Contact>, key: string, i0: nat)
    requires forall i :: 0 <= i < |ids| ==> ids[i] in contacts
    requires i0 < |ids| && Get(contacts[ids[i0]], key) != ""
    requires forall k :: 0 <= k < i0 ==> Get(contacts[ids[k]], key) != Get(contacts[ids[i0]], key)
    ensures Get(contacts[ids[i0]], key) in Seen(ids, contacts, key)
    ensures Seen(ids, contacts, key)[Get(contacts[ids[i0]], key)] == ids[i0]
  {
    var init := ids[..|ids| - 1];
    var v := Get(contacts[ids[i0]], key);
    assert forall i :: 0 <= i < |init| ==> init[i] == ids[i];
    if i0 == |ids| - 1 {
      SeenSound(init, contacts, key);
      assert v !in Seen(init, contacts, key);
    } else {
      SeenFirst(init, contacts, key, i0);
    }
  }

  /** Whatever a prefix of the ids reports, the whole book reports too. */
  lemma {:induction false} DuplicatesPrefixKept(ids: seq<string>, contacts: map<string, Contact>, n: nat, p: seq<string>)
    requires forall i :: 0 <= i < |ids| ==> ids[i] in contacts
    requires n <= |ids| && p in Duplicates(ids[..n], contacts)
    ensures p in Duplicates(ids, contacts)
  {
    if n < |ids| {
      var init := ids[..|ids| - 1];
      assert init[..n] == ids[..n];
      DuplicatesPrefixKept(init, contacts, n, p);
    } else {
      assert ids[..n] == ids;
    }
  }

  /**
   * Every later contact sharing a non-empty phone or email with an earlier
   * one is reported, paired with the first contact holding that value.
   */
  lemma DuplicatesComplete(ids: seq<string>, contacts: map<string, Contact>, key: string, i0: nat, j: nat)
    requires forall i :: 0 <= i < |ids| ==> ids[i] in contacts
    requires key == "phone" || key == "email"
    requires i0 < j < |ids| && Get(contacts[ids[j]], key) != "" && Get(contacts[ids[i0]], key) == Get(contacts[ids[j]], key)
    requires forall k :: 0 <= k < i0 ==> Get(contacts[ids[k]], key) != Get(contacts[ids[j]], key)
    ensures [ids[i0], ids[j]] in Duplicates(ids, contacts)
  {
    var init := ids[..j];
    assert forall i :: 0 <= i < |init| ==> init[i] == ids[i];
    SeenFirst(init, contacts, key, i0);
    assert PairFor(init, ids[j], contacts, key) == [[ids[i0], ids[j]]];
    DuplicatesStep(ids, j, contacts);
    DuplicatesPrefixKept(ids, contacts, j + 1, [ids[i0], ids[j]]);
  }


  /** A book whose phones and emails are all distinct or empty has no duplicates. */
  lemma {:induction false} NoSharedDataNoDuplicates(ids: seq<string>, contacts: map<string, Contact>)
    requires forall i :: 0 <= i < |ids| ==> ids[i] in contacts
    requires forall i, j :: 0 <= i < j < |ids| ==> !SameContactData(contacts, ids[i], ids[j])
    ensures Duplicates(ids, contacts) == []
  {
    if ids != [] {
      var init := ids[..|ids| - 1];
      var id := ids[|ids| - 1];
      assert forall i :: 0 <= i < |init| ==> init[i] == ids[i];
      NoSharedDataNoDuplicates(init, contacts);
      var phones := Seen(init, contacts, "phone");
      var emails := Seen(init, contacts, "email");
      SeenSound(init, contacts, "phone");
      SeenSound(init, contacts, "email");
      assert forall x :: x in init ==> !SameContactData(contacts, x, id);
      assert Get(contacts[id], "phone") !in phones;
      assert Get(contacts[id], "email") !in emails;
    }
  }

  // ---------------------------------------------------------------------
  // Comparing

  datatype Comparison = Comparison(onlyInFirst: set<string>, onlyInSecond: set<string>, common: set<string>)

  /** `compare_address_books` on two id sets: three disjoint parts covering both. */
  function CompareIds(k1: set<string>, k2: set<string>): (r: Comparison)
    ensures r.onlyInFirst !! r.onlyInSecond && r.onlyInFirst !! r.common && r.onlyInSecond !! r.common
    ensures r.onlyInFirst + r.common == k1 && r.onlyInSecond + r.common == k2
    ensures r.onlyInFirst + r.onlyInSecond + r.common == k1 + k2
  {
    Comparison(k1 - k2, k2 - k1, k1 * k2)
  }

  // ---------------------------------------------------------------------
  // The manager

  class Manager {
    var books: map<string, AddressBook>
    ghost var Repr: set<object>

    ghost predicate Valid()
      reads this, Repr
    {
      forall n :: n in books ==> books[n] in Repr && books[n].Valid() && books[n].name == n
    }

    constructor()
      ensures Valid() && books == map[] && fresh(Repr)
    {
      books, Repr := map[], {};
    }

    method CreateAddressBook(name: string, now: string) returns (ok: bool)
      requires Valid()
      modifies this
      ensures Valid()
      ensures ok <==> name !in old(books)
      ensures !ok ==> books == old(books)
      ensures ok ==> name in books && books == old(books)[name := books[name]] && fresh(books[name])
                     && books[name].ids == [] && books[name].contacts == map[]
    {
      if name in books {
        return false;
      }
      var b := new AddressBook(name, now);
      books := books[name := b];
      Repr := Repr + {b};
      return true;
    }

    /**
     * `merge_address_books`: a new book with book1's contacts in book1's
     * order, then book2's new ids in book2's order; a shared id takes
     * book2's contact only when it is newer.
     */
    method MergeAddressBooks(name1: string, name2: string, mergedName: string, now: string) returns (ok: bool)
      requires Valid()
      modifies this
      ensures Valid()
      ensures ok <==> name1 in old(books) && name2 in old(books) && mergedName !in old(books)
      ensures !ok ==> books == old(books)
      ensures ok ==>
        var b1 := old(books)[name1];
        var b2 := old(books)[name2];
        mergedName in books && fresh(books[mergedName]) && books == old(books)[mergedName := books[mergedName]]
        && books[mergedName].contacts == Merged(b1.contacts, b2.contacts)
        && books[mergedName].ids == b1.ids + Filter(NotIn(b1.contacts), b2.ids)
    {
      if name1 !in books || name2 !in books {
        return false;
      }
      if mergedName in books {
        return false;
      }
      var merged := new AddressBook(mergedName, now);
      var b1, b2 := books[name1], books[name2];
      Fill(merged, b1.ids, b1.contacts, b2.ids, b2.contacts, now);
      books := books[mergedName := merged];
      Repr := Repr + {merged};
      return true;
    }

    /**
     * The two loops of `merge_address_books`, filling the new book `merged`
     * from book1's ids `ids1` with contacts `c1`, then book2's.
     */
    static method Fill(merged: AddressBook, ids1: seq<string>, c1: map<string, Contact>,
                       ids2: seq<string>, c2: map<string, Contact>, now: string)
      requires merged.Valid() && merged.ids == [] && merged.contacts == map[]
      requires (forall k :: k in c1 <==> k in ids1) && DistinctIds(ids1)
      requires (forall k :: k in c2 <==> k in ids2) && DistinctIds(ids2)
      modifies merged
      ensures merged.Valid() && merged.name == old(merged.name)
      ensures merged.contacts == Merged(c1, c2)
      ensures merged.ids == ids1 + Filter(NotIn(c1), ids2)
    {
      FillFirst(merged, ids1, c1, now);
      FillSecond(merged, ids1, c1, ids2, c2, now);
    }

    /** The first loop: every contact of book1, in its order. */
    static method FillFirst(merged: AddressBook, ids1: seq<string>, c1: map<string, Contact>, now: string)
      requires merged.Valid() && merged.ids == [] && merged.contacts == map[]
      requires (forall k :: k in c1 <==> k in ids1) && DistinctIds(ids1)
      modifies merged
      ensures merged.Valid() && merged.name == old(merged.name)
      ensures merged.contacts == c1 && merged.ids == ids1
    {
      for i := 0 to |ids1|
        invariant merged.Valid() && merged.name == old(merged.name)
        invariant merged.ids == ids1[..i]
        invariant merged.contacts == map k | k in ids1[..i] :: c1[k]
      {
        var id := ids1[i];
        assert ids1[..i + 1] == ids1[..i] + [id];
        var _ := merged.AddContact(id, c1[id], now);
      }
      assert ids1[..|ids1|] == ids1;
    }

    /** The second loop: book2's new ids are added, shared ones kept or replaced. */
    static method FillSecond(merged: AddressBook, ids1: seq<string>, c1: map<string, Contact>,
                             ids2: seq<string>, c2: map<string, Contact>, now: string)
      requires merged.Valid() && merged.ids == ids1 && merged.contacts == c1
      requires (forall k :: k in c2 <==> k in ids2) && DistinctIds(ids2)
      modifies merged
      ensures merged.Valid() && merged.name == old(merged.name)
      ensures merged.contacts == Merged(c1, c2)
      ensures merged.ids == ids1 + Filter(NotIn(c1), ids2)
    {
      assert MergedOn(c1, c2, Elems(ids2[..0])) == c1;
      for j := 0 to |ids2|
        invariant merged.Valid() && merged.name == old(merged.name)
        invariant merged.ids == ids1 + Filter(NotIn(c1), ids2[..j])
        invariant merged.contacts == MergedOn(c1, c2, Elems(ids2[..j]))
      {
        FillStep(merged, ids1, c1, ids2, c2, j, now);
      }
      assert ids2[..|ids2|] == ids2;
      assert Elems(ids2) == c2.Keys;
    }

    /** The second loop's body for `ids2[j]`, taking the merge from the first `j` ids of book2 to `j + 1`. */
    static method FillStep(merged: AddressBook, ids1: seq<string>, c1: map<string, Contact>,
                           ids2: seq<string>, c2: map<string, Contact>, j: nat, now: string)
      requires (forall k :: k in c2 <==> k in ids2) && DistinctIds(ids2) && j < |ids2|
      requires merged.Valid()
      requires merged.ids == ids1 + Filter(NotIn(c1), ids2[..j])
      requires merged.contacts == MergedOn(c1, c2, Elems(ids2[..j]))
      modifies merged
      ensures merged.Valid() && merged.name == old(merged.name)
      ensures merged.ids == ids1 + Filter(NotIn(c1), ids2[..j + 1])
      ensures merged.contacts == MergedOn(c1, c2, Elems(ids2[..j + 1]))
    {
      var id := ids2[j];
      ElemsStep(ids2, j);
      MergedOnStep(c1, c2, Elems(ids2[..j]), id);
      MergedIdsStep(ids1, c1, ids2, j);
      Absorb(merged, id, c2[id], now);
    }

    /** One step of the second loop: a new id is added, a shared one replaced when `data` is newer. */
    static method Absorb(merged: AddressBook, id: string, data: Contact, now: string)
      requires merged.Valid()
      modifies merged
      ensures merged.Valid() && merged.name == old(merged.name)
      ensures merged.contacts ==
        var m := old(merged.contacts);
        if id !in m || LexLess(Get(m[id], "last_modified"), Get(data, "last_modified")) then m[id := data] else m
      ensures merged.ids == if id in old(merged.contacts) then old(merged.ids) else old(merged.ids) + [id]
    {
      if id !in merged.contacts {
        var _ := merged.AddContact(id, data, now);
      } else if LexLess(Get(merged.contacts[id], "last_modified"), Get(data, "last_modified")) {
        merged.contacts := merged.contacts[id := data];
      }
    }

    /** `find_duplicates`: an unknown book gives no pairs. */
    method FindDuplicates(name: string) returns (dups: seq<seq<string>>)
      requires Valid()
      ensures name !in books ==> dups == []
      ensures name in books ==> dups == Duplicates(books[name].ids, books[name].contacts)
    {
      if name !in books {
        return [];
      }
      dups := ScanDuplicates(books[name].ids, books[name].contacts);
    }

    /** The loop of `find_duplicates` over the ids of one book. */
    static method ScanDuplicates(ids: seq<string>, contacts: map<string, Contact>) returns (dups: seq<seq<string>>)
      requires forall k :: 0 <= k < |ids| ==> ids[k] in contacts
      ensures dups == Duplicates(ids, contacts)
    {
      dups := [];
      var seenPhones: map<string, string> := map[];
      var seenEmails: map<string, string> := map[];
      for i := 0 to |ids|
        invariant dups == Duplicates(ids[..i], contacts)
        invariant seenPhones == Seen(ids[..i], contacts, "phone")
        invariant seenEmails == Seen(ids[..i], contacts, "email")
      {
        var id := ids[i];
        DuplicatesStep(ids, i, contacts);
        var phonePairs, emailPairs;
        phonePairs, seenPhones := Note(Get(contacts[id], "phone"), id, seenPhones);
        emailPairs, seenEmails := Note(Get(contacts[id], "email"), id, seenEmails);
        dups := dups + phonePairs + emailPairs;
      }
      assert ids[..|ids|] == ids;
    }

    /**
     * One value of one contact: a pair with the first id seen with it, or a
     * note that `id` is the first.  Empty values are ignored.
     */
    static method Note(v: string, id: string, seen: map<string, string>)
      returns (pairs: seq<seq<string>>, seen': map<string, string>)
      ensures pairs == if v != "" && v in seen then [[seen[v], id]] else []
      ensures seen' == Record(seen, v, id)
    {
      pairs, seen' := [], seen;
      if v != "" {
        if v in seen {
          pairs := [[seen[v], id]];
        } else {
          seen' := seen[v := id];
        }
      }
    }

    /** `compare_address_books`: None (Python's `{}`) when either book is unknown. */
    function Compare(name1: string, name2: string): (r: Option<Comparison>)
      reads this, Repr
      requires Valid()
      ensures r.Some? <==> name1 in books && name2 in books
      ensures r.Some? ==> r.value.onlyInFirst + r.value.common == books[name1].contacts.Keys
                          && r.value.onlyInSecond + r.value.common == books[name2].contacts.Keys
                          && r.value.onlyInFirst !! r.value.onlyInSecond
    {
      if name1 !in books || name2 !in books then None
      else Some(CompareIds(books[name1].contacts.Keys, books[name2].contacts.Keys))
    }
  }
}
