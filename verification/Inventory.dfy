/**
 A service that holds only parts of a known, numbered content: which bytes a listing of it stands
 for, and when those are the whole content.
 */
module Inventory {
  import opened Prelude
  import opened S3Service
  import opened Multipart
  import opened MultipartAccounting
  import opened MultipartInvariant
  import opened MultipartObject
  import opened MultipartStorage

  /** Everything the service holds is a part of this content, whose parts are in number order. */
  ghost predicate HoldsOnlyPartsOf(server: Parts, whole: seq<Part>) {
    && Ascending(PartNumbers(whole))
    && forall n :: n in server ==>
         exists i :: 0 <= i < |whole| && whole[i].number == n && whole[i].body == server[n].body
  }

  ghost predicate NoEmptyPart(server: Parts) {
    forall n :: n in server ==> |server[n].body| > 0
  }

  ghost predicate ListsEverything(server: Parts, listed: seq<CompletedPart>) {
    forall n :: n in server ==> n in Numbers(listed)
  }

  /** The listing names all of these consecutive part numbers. */
  ghost predicate NamesAll(listed: seq<CompletedPart>, first: int, count: nat) {
    forall n :: first <= n < first + count ==> n in Numbers(listed)
  }

  /** The listing names every part of the content. */
  ghost predicate NamesParts(numbers: seq<int>, whole: seq<Part>) {
    forall i :: 0 <= i < |whole| ==> whole[i].number in numbers
  }

  // ---- the parts of a content that a listing names ----

  lemma {:induction false} TailAscends(whole: seq<Part>)
    requires whole != [] && Ascending(PartNumbers(whole))
    ensures Ascending(PartNumbers(whole[1..]))
    ensures forall i :: 1 <= i < |whole| ==> whole[0].number < whole[i].number
  {
    var numbers := PartNumbers(whole);
    assert PartNumbers(whole[1..]) == numbers[1..];
    forall i | 1 <= i < |whole| ensures whole[0].number < whole[i].number {
      assert numbers[0] < numbers[i];
    }
  }

  lemma {:induction false} NamedAreParts(whole: seq<Part>, numbers: seq<int>)
    ensures forall p <- Kept(whole, numbers) :: p in whole && p.number in numbers
  {
    if whole != [] {
      NamedAreParts(whole[1..], numbers);
    }
  }

  lemma {:induction false} NamedAscend(whole: seq<Part>, numbers: seq<int>)
    requires Ascending(PartNumbers(whole))
    ensures Ascending(PartNumbers(Kept(whole, numbers)))
  {
    if whole != [] {
      var first, more := whole[0].number, Kept(whole[1..], numbers);
      TailAscends(whole);
      NamedAscend(whole[1..], numbers);
      NamedAreParts(whole[1..], numbers);
      assert forall p <- more :: p in whole[1..];
      if first in numbers {
        forall j | 0 <= j < |more| ensures first < more[j].number {
          assert more[j] in whole[1..];
          var i :| 0 <= i < |whole[1..]| && whole[1..][i] == more[j];
          assert whole[i + 1] == more[j];
        }
        SmallerInFront(whole[0], more);
      }
    }
  }

  lemma {:induction false} SmallerInFront(p: Part, more: seq<Part>)
    requires Ascending(PartNumbers(more)) && forall j :: 0 <= j < |more| ==> p.number < more[j].number
    ensures Ascending(PartNumbers([p] + more))
  {
    assert PartNumbers([p] + more) == [p.number] + PartNumbers(more);
    AscendingJoin([p.number], PartNumbers(more), p.number + 1);
  }

  lemma {:induction false} NamedIsKept(whole: seq<Part>, numbers: seq<int>, p: Part)
    requires p in whole && p.number in numbers
    ensures p in Kept(whole, numbers)
  {
    if whole[0] != p {
      NamedIsKept(whole[1..], numbers, p);
    }
  }

  lemma {:induction false} NamedNumber(parts: seq<Part>, x: int)
    ensures x in PartNumbers(parts) <==> exists p :: p in parts && p.number == x
  {
    if x in PartNumbers(parts) {
      var i :| 0 <= i < |parts| && PartNumbers(parts)[i] == x;
      assert parts[i] in parts;
    }
    if p :| p in parts && p.number == x {
      var i :| 0 <= i < |parts| && parts[i] == p;
      assert PartNumbers(parts)[i] == x;
    }
  }

  /** The numbers listed are those of the parts that the listing names. */
  lemma {:induction false} ListedNumbers(o: Origin, whole: seq<Part>)
    requires ValidOrigin(o) && HoldsOnlyPartsOf(o.server, whole)
    ensures var numbers := Numbers(SortByNumber(o.imported));
            numbers == PartNumbers(Kept(whole, numbers))
  {
    var sorted := SortByNumber(o.imported);
    var numbers := Numbers(sorted);
    var kept := Kept(whole, numbers);
    SortDistinct(o.imported);
    SortedHeld(o.server, o.imported);
    NamedAscend(whole, numbers);
    NamedAreParts(whole, numbers);
    forall x ensures x in numbers <==> x in PartNumbers(kept) {
      NamedNumber(kept, x);
      if x in numbers {
        var i :| 0 <= i < |sorted| && numbers[i] == x;
        assert Holds(o.server, sorted[i]);
        var j :| 0 <= j < |whole| && whole[j].number == x && whole[j].body == o.server[x].body;
        NamedIsKept(whole, numbers, whole[j]);
      }
    }
    AscendingUnique(numbers, PartNumbers(kept));
  }

  /** In a content no two parts have the same number. */
  lemma {:induction false} OnePartPerNumber(whole: seq<Part>, p: Part, q: Part)
    requires Ascending(PartNumbers(whole)) && p in whole && q in whole && p.number == q.number
    ensures p == q
  {
    var i :| 0 <= i < |whole| && whole[i] == p;
    var j :| 0 <= j < |whole| && whole[j] == q;
    assert PartNumbers(whole)[i] == PartNumbers(whole)[j];
  }

  lemma {:induction false} HeldBody(server: Parts, whole: seq<Part>, p: Part)
    requires HoldsOnlyPartsOf(server, whole) && p in whole && p.number in server
    ensures server[p.number].body == p.body
  {
    var n := p.number;
    var j :| 0 <= j < |whole| && whole[j].number == n && whole[j].body == server[n].body;
    OnePartPerNumber(whole, p, whole[j]);
  }

  /** The bytes listed are the bodies of those parts, in order. */
  lemma {:induction false} ListedBytes(o: Origin, whole: seq<Part>)
    requires ValidOrigin(o) && HoldsOnlyPartsOf(o.server, whole)
    ensures ImportedBytes(o) == Concat(PartBodies(Kept(whole, Numbers(SortByNumber(o.imported)))))
  {
    var sorted := SortByNumber(o.imported);
    var kept := Kept(whole, Numbers(sorted));
    ListedNumbers(o, whole);
    SortedHeld(o.server, o.imported);
    NamedAreParts(whole, Numbers(sorted));
    assert |sorted| == |Numbers(sorted)| == |kept|;
    forall i | 0 <= i < |kept| ensures Bodies(o.server, sorted)[i] == PartBodies(kept)[i] {
      assert kept[i] in kept;
      assert sorted[i].number == Numbers(sorted)[i] == PartNumbers(kept)[i] == kept[i].number;
      assert Holds(o.server, sorted[i]);
      HeldBody(o.server, whole, kept[i]);
    }
    assert Bodies(o.server, sorted) == PartBodies(kept);
  }

  // ---- when they are the whole content ----

  lemma {:induction false} KeptAll(whole: seq<Part>, numbers: seq<int>)
    requires NamesParts(numbers, whole)
    ensures Kept(whole, numbers) == whole
  {
    if whole != [] {
      KeptAll(whole[1..], numbers);
      assert whole == [whole[0]] + whole[1..];
    }
  }

  lemma {:induction false} KeptLosesUnnamed(whole: seq<Part>, numbers: seq<int>)
    requires !NamesParts(numbers, whole)
    ensures |Kept(whole, numbers)| < |whole|
  {
    if whole[0].number !in numbers {
      KeptWhole(whole[1..], numbers);
    } else {
      var i :| 0 <= i < |whole| && whole[i].number !in numbers;
      assert whole[1..][i - 1] == whole[i];
      KeptLosesUnnamed(whole[1..], numbers);
    }
  }

  /** The bytes listed are the whole content exactly when every part was named, and fewer otherwise. */
  lemma {:induction false} ListedBytesComplete(o: Origin, whole: seq<Part>)
    requires ValidOrigin(o) && HoldsOnlyPartsOf(o.server, whole)
    requires forall i :: 0 <= i < |whole| ==> |whole[i].body| > 0
    ensures NamesParts(Numbers(o.imported), whole) ==> ImportedBytes(o) == Concat(PartBodies(whole))
    ensures !NamesParts(Numbers(o.imported), whole) ==> |ImportedBytes(o)| < |Concat(PartBodies(whole))|
  {
    var numbers := Numbers(SortByNumber(o.imported));
    ListedBytes(o, whole);
    SortDistinct(o.imported);
    assert NamesParts(numbers, whole) <==> NamesParts(Numbers(o.imported), whole);
    if NamesParts(numbers, whole) {
      KeptAll(whole, numbers);
    } else {
      KeptLosesUnnamed(whole, numbers);
      KeptIsShorter(whole, numbers);
    }
  }

  // ---- the content a writer works on: what it found, and what it issued ----

  /** The writer found every part the service held, and none of them empty. */
  ghost predicate FoundEverything(o: Origin) {
    ValidOrigin(o) && ListsEverything(o.server, o.imported) && NoEmptyPart(o.server)
  }

  /** The parts a writer found, in number order. */
  function Found(o: Origin): (parts: seq<Part>) {
    Landed(o.server, SortByNumber(o.imported))
  }

  lemma {:induction false} FoundParts(o: Origin)
    requires FoundEverything(o)
    ensures Ascending(PartNumbers(Found(o)))
    ensures forall i :: 0 <= i < |Found(o)| ==>
              var p := Found(o)[i]; p.number < o.first && p.number in o.server && o.server[p.number].body == p.body
    ensures forall n :: n in o.server ==> n in PartNumbers(Found(o))
    ensures AllHeld(o.server, SortByNumber(o.imported))
    ensures PartBodies(Found(o)) == Bodies(o.server, SortByNumber(o.imported))
  {
    var sorted := SortByNumber(o.imported);
    SortDistinct(o.imported);
    SortedHeld(o.server, o.imported);
    ImportedBelow(o);
    assert PartNumbers(Found(o)) == Numbers(sorted);
    forall i | 0 <= i < |sorted| ensures sorted[i].number in o.server {
      assert Holds(o.server, sorted[i]);
    }
  }

  /** What was held before and what was issued make one content, of which the service holds parts only. */
  lemma {:induction false} WholeContent(o: Origin, issued: seq<Part>, server: Parts)
    requires FoundEverything(o) && HoldsOnlyIssued(o.server, server, issued, o.first)
    ensures HoldsOnlyPartsOf(server, Found(o) + issued)
  {
    var found := Found(o);
    var whole := found + issued;
    FoundParts(o);
    AscendingJoin(PartNumbers(found), PartNumbers(issued), o.first);
    assert PartNumbers(whole) == PartNumbers(found) + PartNumbers(issued);
    forall n | n in server
      ensures exists i :: 0 <= i < |whole| && whole[i].number == n && whole[i].body == server[n].body
    {
      var i := WhereHeld(o, issued, server, n);
      assert whole[i].number == n && whole[i].body == server[n].body;
    }
  }

  lemma {:induction false} WhereHeld(o: Origin, issued: seq<Part>, server: Parts, n: int) returns (i: nat)
    requires FoundEverything(o) && HoldsOnlyIssued(o.server, server, issued, o.first) && n in server
    ensures var whole := Found(o) + issued; i < |whole| && whole[i].number == n && whole[i].body == server[n].body
  {
    var found := Found(o);
    FoundParts(o);
    if n in o.server && server[n] == o.server[n] {
      i :| 0 <= i < |found| && PartNumbers(found)[i] == n;
      assert (found + issued)[i] == found[i];
    } else {
      i := |found| + (n - o.first);
      assert (found + issued)[i] == issued[n - o.first];
    }
  }

  lemma {:induction false} WholeBytes(o: Origin, issued: seq<Part>)
    requires FoundEverything(o)
    requires forall i :: 0 <= i < |issued| ==> |issued[i].body| > 0
    ensures Concat(PartBodies(Found(o) + issued)) == ImportedBytes(o) + Concat(PartBodies(issued))
    ensures forall i :: 0 <= i < |Found(o) + issued| ==> |(Found(o) + issued)[i].body| > 0
  {
    FoundParts(o);
    PartBodiesAppend(Found(o), issued);
    ConcatAppend(PartBodies(Found(o)), PartBodies(issued));
  }

  /** Naming the whole content is naming what was held before and every number issued. */
  lemma {:induction false} NamesWhole(o: Origin, issued: seq<Part>, listed: seq<CompletedPart>)
    requires FoundEverything(o) && NumberedFrom(issued, o.first)
    ensures NamesParts(Numbers(listed), Found(o) + issued)
       <==> ListsEverything(o.server, listed) && NamesAll(listed, o.first, |issued|)
  {
    NamesBoth(Numbers(listed), Found(o), issued);
    NamesFound(o, listed);
    NamesIssued(o.first, issued, listed);
  }

  lemma {:induction false} NamesBoth(numbers: seq<int>, a: seq<Part>, b: seq<Part>)
    ensures NamesParts(numbers, a + b) <==> NamesParts(numbers, a) && NamesParts(numbers, b)
  {
    assert forall i :: 0 <= i < |a| ==> (a + b)[i] == a[i];
    assert forall i :: 0 <= i < |b| ==> (a + b)[|a| + i] == b[i];
  }

  lemma {:induction false} NamesFound(o: Origin, listed: seq<CompletedPart>)
    requires FoundEverything(o)
    ensures NamesParts(Numbers(listed), Found(o)) <==> ListsEverything(o.server, listed)
  {
    var found := Found(o);
    FoundParts(o);
    if NamesParts(Numbers(listed), found) {
      forall n | n in o.server ensures n in Numbers(listed) {
        var i :| 0 <= i < |found| && PartNumbers(found)[i] == n;
        assert found[i].number in Numbers(listed);
      }
    }
  }

  lemma {:induction false} NamesIssued(first: int, issued: seq<Part>, listed: seq<CompletedPart>)
    requires NumberedFrom(issued, first)
    ensures NamesParts(Numbers(listed), issued) <==> NamesAll(listed, first, |issued|)
  {
    if NamesParts(Numbers(listed), issued) {
      forall n | first <= n < first + |issued| ensures n in Numbers(listed) {
        assert issued[n - first].number in Numbers(listed);
      }
    }
  }

  /** No empty part comes to be held. */
  lemma {:induction false} NoEmptyPartStays(before: Parts, server: Parts, issued: seq<Part>, first: int)
    requires NoEmptyPart(before) && HoldsOnlyIssued(before, server, issued, first)
    requires forall i :: 0 <= i < |issued| ==> |issued[i].body| > 0
    ensures NoEmptyPart(server)
  {}
}
