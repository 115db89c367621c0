/** The object a successful close produces, and what it has to do with the bytes that were written. */
module MultipartObject {
  import opened Prelude
  import opened S3Service
  import opened Multipart
  import opened MultipartAccounting
  import opened MultipartInvariant

  function PartNumbers(parts: seq<Part>): (numbers: seq<int>)
    ensures |numbers| == |parts|
    ensures forall i :: 0 <= i < |parts| ==> numbers[i] == parts[i].number
  {
    seq(|parts|, i requires 0 <= i < |parts| => parts[i].number)
  }

  /** The issued parts that a submitted list names. */
  function Kept(issued: seq<Part>, numbers: seq<int>): (parts: seq<Part>) {
    if issued == [] then []
    else if issued[0].number in numbers then [issued[0]] + Kept(issued[1..], numbers)
    else Kept(issued[1..], numbers)
  }

  lemma {:induction false} KeptIsFiltered(issued: seq<Part>, first: int, numbers: seq<int>)
    requires NumberedFrom(issued, first)
    ensures forall p <- Kept(issued, numbers) ::
              && first <= p.number < first + |issued|
              && issued[p.number - first] == p
              && p.number in numbers
  {
    if issued != [] {
      var more := Kept(issued[1..], numbers);
      KeptIsFiltered(issued[1..], first + 1, numbers);
      forall p | p in Kept(issued, numbers)
        ensures first <= p.number < first + |issued| && issued[p.number - first] == p && p.number in numbers
      {
        if p !in more {
          assert p == issued[0];
        }
      }
    }
  }

  /** Ascending numbers below a bound followed by ascending numbers from it on are ascending. */
  lemma {:induction false} AscendingJoin(a: seq<int>, b: seq<int>, bound: int)
    requires Ascending(a) && Ascending(b)
    requires (forall i :: 0 <= i < |a| ==> a[i] < bound) && (forall i :: 0 <= i < |b| ==> bound <= b[i])
    ensures Ascending(a + b)
  {}

  lemma {:induction false} KeptIsAscending(issued: seq<Part>, first: int, numbers: seq<int>)
    requires NumberedFrom(issued, first)
    ensures Ascending(PartNumbers(Kept(issued, numbers)))
  {
    if issued != [] {
      var more := Kept(issued[1..], numbers);
      KeptIsAscending(issued[1..], first + 1, numbers);
      KeptIsFiltered(issued[1..], first + 1, numbers);
      if issued[0].number in numbers {
        assert PartNumbers([issued[0]] + more) == [first] + PartNumbers(more);
        forall j | 0 <= j < |more| ensures first < PartNumbers(more)[j] {
          assert more[j] in more;
        }
        AscendingJoin([first], PartNumbers(more), first + 1);
      }
    }
  }

  lemma {:induction false} KeptWhole(issued: seq<Part>, numbers: seq<int>)
    ensures |Kept(issued, numbers)| <= |issued|
    ensures |Kept(issued, numbers)| == |issued| ==> Kept(issued, numbers) == issued
  {
    if issued != [] {
      KeptWhole(issued[1..], numbers);
      assert issued == [issued[0]] + issued[1..];
    }
  }

  lemma {:induction false} KeptIsComplete(issued: seq<Part>, first: int, numbers: seq<int>, x: int)
    requires NumberedFrom(issued, first)
    requires first <= x < first + |issued| && x in numbers
    ensures x in PartNumbers(Kept(issued, numbers))
  {
    var kept := Kept(issued, numbers);
    if issued[0].number == x {
      assert PartNumbers(kept)[0] == x;
    } else {
      KeptIsComplete(issued[1..], first + 1, numbers, x);
      var more := Kept(issued[1..], numbers);
      var j :| 0 <= j < |more| && PartNumbers(more)[j] == x;
      assert kept == more || kept == [issued[0]] + more;
      assert PartNumbers(kept)[if kept == more then j else j + 1] == x;
    }
  }

  /** Every part left out takes at least one byte with it. */
  lemma {:induction false} KeptIsShorter(issued: seq<Part>, numbers: seq<int>)
    requires forall i :: 0 <= i < |issued| ==> |issued[i].body| > 0
    ensures var kept := Kept(issued, numbers);
            |Concat(PartBodies(kept))| + |issued| - |kept| <= |Concat(PartBodies(issued))|
  {
    if issued != [] {
      KeptIsShorter(issued[1..], numbers);
      var more := Kept(issued[1..], numbers);
      BodiesCons(issued[0], issued[1..]);
      BodiesCons(issued[0], more);
      assert issued == [issued[0]] + issued[1..];
    }
  }

  lemma {:induction false} BodiesCons(first: Part, rest: seq<Part>)
    ensures Concat(PartBodies([first] + rest)) == first.body + Concat(PartBodies(rest))
  {
    assert PartBodies([first] + rest) == [first.body] + PartBodies(rest);
    ConcatCons(first.body, PartBodies(rest));
  }

  /** The bytes that were already there when the writer picked up, in part order. */
  function ImportedBytes(o: Origin): (bytes: seq<byte>)
    requires AllHeld(o.server, o.imported)
  {
    SortSorts(o.imported);
    SortedHeld(o.server, o.imported);
    Concat(Bodies(o.server, SortByNumber(o.imported)))
  }

  lemma {:induction false} SortedHeld(server: Parts, parts: seq<CompletedPart>)
    requires AllHeld(server, parts)
    ensures AllHeld(server, SortByNumber(parts))
  {
    SortSorts(parts);
    var r := SortByNumber(parts);
    forall i | 0 <= i < |r| ensures Holds(server, r[i]) {
      assert r[i] in multiset(r);
      assert r[i] in parts;
    }
  }

  // ---- the submitted list ----

  lemma {:induction false} DistinctOnce(numbers: seq<int>, x: int)
    requires forall i, j :: 0 <= i < j < |numbers| ==> numbers[i] != numbers[j]
    ensures multiset(numbers)[x] <= 1
  {
    if numbers != [] {
      var rest, last := numbers[..|numbers|-1], numbers[|numbers|-1];
      assert numbers == rest + [last];
      DistinctOnce(rest, x);
      assert last !in rest;
    }
  }

  /** The completed parts of a writer with nothing in flight. */
  ghost predicate Finished(o: Origin, server: Parts, issued: seq<Part>, completed: seq<CompletedPart>) {
    && NumberedFrom(issued, o.first)
    && o.imported <= completed
    && (forall k :: 0 <= k < |o.imported| ==> completed[k].number < o.first)
    && AllHeld(server, completed)
    && (forall k :: |o.imported| <= k < |completed| ==>
          && o.first <= completed[k].number < o.first + |issued|
          && LandedPart(server, completed[k]) == issued[completed[k].number - o.first])
    && (forall i, j :: |o.imported| <= i < j < |completed| ==> completed[i].number != completed[j].number)
  }

  lemma {:induction false} LandedIsFinished(o: Origin, server: Parts, issued: seq<Part>, completed: seq<CompletedPart>)
    requires NumberedFrom(issued, o.first) && o.imported <= completed && AllHeld(server, completed)
    requires forall i :: 0 <= i < |o.imported| ==> o.imported[i].number < o.first
    requires var landed := Landed(server, completed[|o.imported|..]);
             && DistinctNumbers(landed)
             && forall k :: 0 <= k < |landed| ==>
                  o.first <= landed[k].number < o.first + |issued| && issued[landed[k].number - o.first] == landed[k]
    ensures Finished(o, server, issued, completed)
  {
    var landed := Landed(server, completed[|o.imported|..]);
    forall k | |o.imported| <= k < |completed|
      ensures && o.first <= completed[k].number < o.first + |issued|
              && LandedPart(server, completed[k]) == issued[completed[k].number - o.first]
    {
      assert landed[k - |o.imported|] == LandedPart(server, completed[k]);
    }
    forall i, j | |o.imported| <= i < j < |completed| ensures completed[i].number != completed[j].number {
      assert landed[i - |o.imported|].number != landed[j - |o.imported|].number;
    }
    forall k | 0 <= k < |o.imported| ensures completed[k].number < o.first {
      assert completed[k] == o.imported[k];
    }
  }

  lemma {:induction false} NothingInFlight(server: Parts, first: int, imported: seq<CompletedPart>, issued: seq<Part>,
                                           completed: seq<CompletedPart>)
    requires Tracked(server, first, imported, issued, [], completed)
    ensures var landed := Landed(server, completed[|imported|..]);
            && DistinctNumbers(landed)
            && forall k :: 0 <= k < |landed| ==>
                 first <= landed[k].number < first + |issued| && issued[landed[k].number - first] == landed[k]
  {
    TrackedNumbers(server, first, imported, issued, [], completed);
    var landed := Landed(server, completed[|imported|..]);
    var all := UploadParts([]) + landed;
    forall i, j | 0 <= i < j < |landed| ensures landed[i].number != landed[j].number {
      assert all[i] == landed[i] && all[j] == landed[j];
    }
    forall k | 0 <= k < |landed|
      ensures first <= landed[k].number < first + |issued| && issued[landed[k].number - first] == landed[k]
    {
      assert all[k] == landed[k];
    }
  }

  lemma {:induction false} TrackedIsFinished(o: Origin, server: Parts, issued: seq<Part>, completed: seq<CompletedPart>)
    requires Tracked(server, o.first, o.imported, issued, [], completed)
    ensures Finished(o, server, issued, completed)
  {
    NothingInFlight(server, o.first, o.imported, issued, completed);
    LandedIsFinished(o, server, issued, completed);
  }

  lemma {:induction false} CountInBoth(a: seq<int>, b: seq<int>, x: int)
    requires multiset(a)[x] <= 1 && multiset(b)[x] <= 1
    requires x !in a || x !in b
    ensures multiset(a + b)[x] <= 1
  {
    assert x in a <==> x in multiset(a);
    assert x in b <==> x in multiset(b);
  }

  lemma {:induction false} NumbersAppend(a: seq<CompletedPart>, b: seq<CompletedPart>)
    ensures Numbers(a + b) == Numbers(a) + Numbers(b)
  {}

  lemma {:induction false} AddedOnce(o: Origin, server: Parts, issued: seq<Part>, completed: seq<CompletedPart>, x: int)
    requires Finished(o, server, issued, completed)
    ensures var added := Numbers(completed[|o.imported|..]);
            multiset(added)[x] <= 1 && (x in added ==> o.first <= x)
  {
    var added := Numbers(completed[|o.imported|..]);
    forall i | 0 <= i < |added| ensures added[i] == completed[|o.imported| + i].number {
    }
    DistinctOnce(added, x);
  }

  lemma {:induction false} FinishedOnce(o: Origin, server: Parts, issued: seq<Part>, completed: seq<CompletedPart>,
                                        x: int)
    requires Finished(o, server, issued, completed)
    requires multiset(Numbers(o.imported))[x] <= 1
    ensures multiset(Numbers(completed))[x] <= 1
  {
    var added := completed[|o.imported|..];
    AddedOnce(o, server, issued, completed, x);
    assert x in Numbers(o.imported) ==> x < o.first by {
      if x in Numbers(o.imported) {
        var i :| 0 <= i < |o.imported| && Numbers(o.imported)[i] == x;
        assert completed[i] == o.imported[i];
      }
    }
    NumbersAppend(o.imported, added);
    assert completed == o.imported + added;
    CountInBoth(Numbers(o.imported), Numbers(added), x);
  }

  lemma {:induction false} FinishedMembers(o: Origin, server: Parts, issued: seq<Part>, completed: seq<CompletedPart>,
                                           p: CompletedPart)
    requires Finished(o, server, issued, completed) && p in completed
    ensures p.number < o.first ==> p in o.imported
    ensures p.number >= o.first ==>
              p.number < o.first + |issued| && LandedPart(server, p) == issued[p.number - o.first]
  {
    var k :| 0 <= k < |completed| && completed[k] == p;
    if k < |o.imported| {
      assert o.imported[k] == p;
    }
  }

  lemma {:induction false} ImportedIsFinished(o: Origin, server: Parts, issued: seq<Part>,
                                              completed: seq<CompletedPart>, p: CompletedPart)
    requires Finished(o, server, issued, completed) && p in o.imported
    ensures p in completed && p.number < o.first
  {
    var k :| 0 <= k < |o.imported| && o.imported[k] == p;
    assert completed[k] == p;
  }

  lemma {:induction false} NumberIn(parts: seq<CompletedPart>, x: int)
    ensures x in Numbers(parts) <==> exists p :: p in parts && p.number == x
  {
    if x in Numbers(parts) {
      var i :| 0 <= i < |parts| && Numbers(parts)[i] == x;
      assert parts[i] in parts;
    }
    if p :| p in parts && p.number == x {
      var i :| 0 <= i < |parts| && parts[i] == p;
      assert Numbers(parts)[i] == x;
    }
  }

  /** The numbers of the submitted list are those of the imported parts and of the kept ones. */
  lemma {:induction false} SameNumbers(o: Origin, server: Parts, issued: seq<Part>, completed: seq<CompletedPart>,
                                       numbers: seq<int>, x: int)
    requires Finished(o, server, issued, completed)
    requires forall n :: n in numbers <==> n in Numbers(completed)
    ensures x in numbers <==> x in Numbers(o.imported) || x in PartNumbers(Kept(issued, numbers))
  {
    NumberIn(completed, x);
    NumberIn(o.imported, x);
    if x in numbers {
      var p :| p in completed && p.number == x;
      FinishedMembers(o, server, issued, completed, p);
      if x >= o.first {
        KeptIsComplete(issued, o.first, numbers, x);
      }
    }
    if x in Numbers(o.imported) {
      var p :| p in o.imported && p.number == x;
      ImportedIsFinished(o, server, issued, completed, p);
    }
    KeptIsFiltered(issued, o.first, numbers);
    if x in PartNumbers(Kept(issued, numbers)) {
      var j :| 0 <= j < |Kept(issued, numbers)| && PartNumbers(Kept(issued, numbers))[j] == x;
      assert Kept(issued, numbers)[j] in Kept(issued, numbers);
    }
  }

  lemma {:induction false} ImportedBelow(o: Origin)
    requires ValidOrigin(o)
    ensures forall i :: 0 <= i < |SortByNumber(o.imported)| ==> SortByNumber(o.imported)[i].number < o.first
  {
    SortDistinct(o.imported);
    var sorted := SortByNumber(o.imported);
    forall i | 0 <= i < |sorted| ensures sorted[i].number < o.first {
      assert sorted[i] in o.imported;
    }
  }

  /** The submitted list is strictly ascending: first the imported parts, then the kept ones. */
  lemma {:induction false} SubmittedNumbers(o: Origin, server: Parts, issued: seq<Part>, completed: seq<CompletedPart>)
    requires ValidOrigin(o) && Finished(o, server, issued, completed)
    ensures var numbers := Numbers(SortByNumber(completed));
            && Ascending(numbers)
            && numbers == Numbers(SortByNumber(o.imported)) + PartNumbers(Kept(issued, numbers))
  {
    var numbers := Numbers(SortByNumber(completed));
    forall x ensures multiset(Numbers(completed))[x] <= 1 {
      FinishedOnce(o, server, issued, completed, x);
    }
    SortDistinct(completed);
    SortDistinct(o.imported);
    var front, kept := Numbers(SortByNumber(o.imported)), Kept(issued, numbers);
    KeptIsFiltered(issued, o.first, numbers);
    KeptIsAscending(issued, o.first, numbers);
    ImportedBelow(o);
    forall i | 0 <= i < |kept| ensures o.first <= PartNumbers(kept)[i] {
      assert kept[i] in kept;
    }
    AscendingJoin(front, PartNumbers(kept), o.first);
    forall x ensures x in numbers <==> x in front + PartNumbers(kept) {
      SameNumbers(o, server, issued, completed, numbers, x);
    }
    AscendingUnique(numbers, front + PartNumbers(kept));
  }

  /** The body the service keeps for a submitted part is the one that was imported or issued. */
  lemma {:induction false} SubmittedBody(o: Origin, server: Parts, issued: seq<Part>, completed: seq<CompletedPart>,
                                         p: CompletedPart)
    requires Finished(o, server, issued, completed) && p in completed
    requires AllHeld(o.server, o.imported)
    requires forall n :: n < o.first && n in o.server ==> n in server && server[n] == o.server[n]
    ensures p.number in server
    ensures p.number < o.first ==> p.number in o.server && server[p.number].body == o.server[p.number].body
    ensures p.number >= o.first ==>
              p.number < o.first + |issued| && server[p.number].body == issued[p.number - o.first].body
  {
    FinishedMembers(o, server, issued, completed, p);
    var k :| 0 <= k < |completed| && completed[k] == p;
    assert Holds(server, completed[k]);
    if p.number < o.first {
      var i :| 0 <= i < |o.imported| && o.imported[i] == p;
      assert Holds(o.server, o.imported[i]);
    }
  }

  /** Position by position, the submitted list names the imported parts and then the kept ones. */
  lemma {:induction false} SubmittedNumberAt(o: Origin, server: Parts, issued: seq<Part>,
                                             completed: seq<CompletedPart>, i: nat)
    requires ValidOrigin(o) && Finished(o, server, issued, completed)
    requires i < |SortByNumber(completed)|
    ensures var request, sorted := SortByNumber(completed), SortByNumber(o.imported);
            var kept := Kept(issued, Numbers(request));
            && |request| == |sorted| + |kept|
            && (i < |sorted| ==> request[i].number == sorted[i].number < o.first)
            && (i >= |sorted| ==> request[i].number == kept[i - |sorted|].number)
  {
    var request, sorted := SortByNumber(completed), SortByNumber(o.imported);
    var numbers := Numbers(request);
    var kept := Kept(issued, numbers);
    SubmittedNumbers(o, server, issued, completed);
    assert |numbers| == |sorted| + |kept|;
    ImportedBelow(o);
    if i < |sorted| {
      assert numbers[i] == Numbers(sorted)[i];
    } else {
      assert numbers[i] == PartNumbers(kept)[i - |sorted|];
    }
  }

  lemma {:induction false} KeptAt(issued: seq<Part>, first: int, numbers: seq<int>, j: nat)
    requires NumberedFrom(issued, first) && j < |Kept(issued, numbers)|
    ensures var p := Kept(issued, numbers)[j];
            first <= p.number < first + |issued| && issued[p.number - first] == p
  {
    KeptIsFiltered(issued, first, numbers);
    assert Kept(issued, numbers)[j] in Kept(issued, numbers);
  }

  lemma {:induction false} SubmittedBodyAt(o: Origin, server: Parts, issued: seq<Part>, completed: seq<CompletedPart>,
                                           i: nat)
    requires ValidOrigin(o) && Finished(o, server, issued, completed)
    requires forall n :: n < o.first && n in o.server ==> n in server && server[n] == o.server[n]
    requires i < |SortByNumber(completed)|
    ensures var request, sorted := SortByNumber(completed), SortByNumber(o.imported);
            var kept := Kept(issued, Numbers(request));
            && |request| == |sorted| + |kept|
            && request[i].number in server
            && (i < |sorted| ==>
                  && sorted[i].number in o.server
                  && server[request[i].number].body == o.server[sorted[i].number].body)
            && (i >= |sorted| ==> server[request[i].number].body == kept[i - |sorted|].body)
  {
    var request, sorted := SortByNumber(completed), SortByNumber(o.imported);
    SubmittedNumberAt(o, server, issued, completed, i);
    assert request[i] in completed by {
      SortSorts(completed);
      assert request[i] in multiset(request);
    }
    SubmittedBody(o, server, issued, completed, request[i]);
    if i >= |sorted| {
      KeptAt(issued, o.first, Numbers(request), i - |sorted|);
    }
  }

  lemma {:induction false} SubmittedBodies(o: Origin, server: Parts, issued: seq<Part>, completed: seq<CompletedPart>)
    requires ValidOrigin(o) && Finished(o, server, issued, completed)
    requires forall n :: n < o.first && n in o.server ==> n in server && server[n] == o.server[n]
    requires AllHeld(o.server, SortByNumber(o.imported)) && AllHeld(server, SortByNumber(completed))
    ensures var request, sorted := SortByNumber(completed), SortByNumber(o.imported);
            var kept := Kept(issued, Numbers(request));
            && |request| == |sorted| + |kept|
            && Bodies(server, request) == Bodies(o.server, sorted) + PartBodies(kept)
  {
    var request, sorted := SortByNumber(completed), SortByNumber(o.imported);
    var kept := Kept(issued, Numbers(request));
    assert |request| == |sorted| + |kept| by {
      SubmittedNumbers(o, server, issued, completed);
      assert |Numbers(request)| == |sorted| + |kept|;
    }
    forall i | 0 <= i < |request|
      ensures Bodies(server, request)[i] == (Bodies(o.server, sorted) + PartBodies(kept))[i]
    {
      SubmittedBodyAt(o, server, issued, completed, i);
    }
  }

  /** What the service assembles from the sorted list of the completed parts. */
  lemma {:induction false} SortedContents(o: Origin, server: Parts, issued: seq<Part>, completed: seq<CompletedPart>)
    requires ValidOrigin(o) && Finished(o, server, issued, completed)
    requires forall n :: n < o.first && n in o.server ==> n in server && server[n] == o.server[n]
    ensures var request := SortByNumber(completed);
            var kept := Kept(issued, Numbers(request));
            && Ascending(Numbers(request))
            && Numbers(request) == Numbers(SortByNumber(o.imported)) + PartNumbers(kept)
            && |request| == |o.imported| + |kept|
            && Assemble(server, request) == Some(ImportedBytes(o) + Concat(PartBodies(kept)))
  {
    SortSorts(o.imported);
    SortedHeld(o.server, o.imported);
    SortedHeld(server, completed);
    SubmittedNumbers(o, server, issued, completed);
    SubmittedBodies(o, server, issued, completed);
    ConcatAppend(Bodies(o.server, SortByNumber(o.imported)),
                 PartBodies(Kept(issued, Numbers(SortByNumber(completed)))));
  }

  lemma {:induction false} SubmittedContents(o: Origin, w: Writer, request: seq<CompletedPart>)
    requires ValidOrigin(o) && Submitted(o, w, request)
    requires Untouched(o.server, w.world.server, o.first, |w.issued|)
    ensures var kept := Kept(w.issued, Numbers(request));
            && Ascending(Numbers(request))
            && NumberedFrom(w.issued, o.first)
            && Numbers(request) == Numbers(SortByNumber(o.imported)) + PartNumbers(kept)
            && |request| == |o.imported| + |kept|
            && Assemble(w.world.server, request) == Some(ImportedBytes(o) + Concat(PartBodies(kept)))
  {
    var completed :| Account(o, w, [], completed) && request == SortByNumber(completed);
    TrackedIsFinished(o, w.world.server, w.issued, completed);
    SortedContents(o, w.world.server, w.issued, completed);
  }

  lemma {:induction false} NothingImported(o: Origin)
    requires o.imported == []
    ensures ValidOrigin(o) && ImportedBytes(o) == [] && Numbers(SortByNumber(o.imported)) == []
  {
    assert Numbers([]) == [];
    assert Bodies(o.server, []) == [];
  }

  lemma {:induction false} EmptyFront<T>(s: seq<T>)
    ensures [] + s == s
  {}

  /** The same with nothing imported. */
  lemma {:induction false} SortedContentsOfNew(server: Parts, issued: seq<Part>, completed: seq<CompletedPart>)
    requires Finished(Origin(1, [], server), server, issued, completed)
    ensures var request := SortByNumber(completed);
            var kept := Kept(issued, Numbers(request));
            && Numbers(request) == PartNumbers(kept)
            && |request| == |kept|
            && Assemble(server, request) == Some(Concat(PartBodies(kept)))
  {
    var o := Origin(1, [], server);
    var kept := Kept(issued, Numbers(SortByNumber(completed)));
    NothingImported(o);
    SortedContents(o, server, issued, completed);
    EmptyFront(PartNumbers(kept));
    EmptyFront(Concat(PartBodies(kept)));
  }
}
