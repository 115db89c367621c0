/**
 The part of the S3 service that a multipart upload relies on: parts kept by number, each with the
 tag the service handed out for it, and the assembly of an object from a submitted part list.
 */
module S3Service {
  import opened Prelude

  /** A part's entity tag and checksums, as one opaque value. */
  type Tag = nat

  datatype CompletedPart = CompletedPart(number: int, tag: Tag)

  datatype Stored = Stored(body: seq<byte>, tag: Tag)

  type Parts = map<int, Stored>

  function Numbers(parts: seq<CompletedPart>): (numbers: seq<int>)
    ensures |numbers| == |parts|
    ensures forall i :: 0 <= i < |parts| ==> numbers[i] == parts[i].number
  {
    seq(|parts|, i requires 0 <= i < |parts| => parts[i].number)
  }

  /** The service knows this part under the submitted tag. */
  predicate Holds(server: Parts, part: CompletedPart) {
    part.number in server && server[part.number].tag == part.tag
  }

  predicate AllHeld(server: Parts, parts: seq<CompletedPart>) {
    forall i :: 0 <= i < |parts| ==> Holds(server, parts[i])
  }

  function Bodies(server: Parts, request: seq<CompletedPart>): (bodies: seq<seq<byte>>)
    requires AllHeld(server, request)
    ensures |bodies| == |request|
    ensures forall i :: 0 <= i < |request| ==> bodies[i] == server[request[i].number].body
  {
    seq(|request|, i requires 0 <= i < |request| => server[request[i].number].body)
  }

  predicate Ascending(numbers: seq<int>) {
    forall i, j :: 0 <= i < j < |numbers| ==> numbers[i] < numbers[j]
  }

  /**
   The object a complete request produces: the parts' bodies in list order. A list that is not
   strictly ascending, or that names a part the service does not hold under that tag, is refused.
   */
  function Assemble(server: Parts, request: seq<CompletedPart>): (result: Option<seq<byte>>) {
    if Ascending(Numbers(request)) && AllHeld(server, request) then
      Some(Concat(Bodies(server, request)))
    else
      None
  }

  /** A strictly ascending list is determined by its elements. */
  lemma {:induction false} AscendingUnique(a: seq<int>, b: seq<int>)
    requires Ascending(a) && Ascending(b)
    requires forall x :: x in a <==> x in b
    ensures a == b
  {
    assert b != [] ==> b[0] in b;
    if a != [] {
      assert a[0] in a;
      assert b[0] in b by { assert a[0] in b; }
      assert a[0] == b[0];
      forall x ensures x in a[1..] <==> x in b[1..] {
        if x in a[1..] { assert x in a && x != a[0]; assert x in b; }
        if x in b[1..] { assert x in b && x != b[0]; assert x in a; }
      }
      AscendingUnique(a[1..], b[1..]);
    }
  }

  // ---- the stable sort by part number ----

  predicate Sorted(parts: seq<CompletedPart>) {
    forall i, j :: 0 <= i < j < |parts| ==> parts[i].number <= parts[j].number
  }

  function Insert(x: CompletedPart, parts: seq<CompletedPart>): (r: seq<CompletedPart>) {
    if parts == [] || x.number <= parts[0].number then
      [x] + parts
    else
      [parts[0]] + Insert(x, parts[1..])
  }

  function SortByNumber(parts: seq<CompletedPart>): (r: seq<CompletedPart>) {
    if parts == [] then [] else Insert(parts[0], SortByNumber(parts[1..]))
  }

  lemma {:induction false} InsertKeepsAll(x: CompletedPart, parts: seq<CompletedPart>)
    ensures multiset(Insert(x, parts)) == multiset{x} + multiset(parts)
  {
    if parts != [] {
      InsertKeepsAll(x, parts[1..]);
      assert parts == [parts[0]] + parts[1..];
    }
  }

  lemma {:induction false} NumbersCons(first: CompletedPart, rest: seq<CompletedPart>)
    ensures Numbers([first] + rest) == [first.number] + Numbers(rest)
  {}

  lemma {:induction false} InsertKeepsNumbers(x: CompletedPart, parts: seq<CompletedPart>)
    ensures multiset(Numbers(Insert(x, parts))) == multiset{x.number} + multiset(Numbers(parts))
  {
    if parts == [] || x.number <= parts[0].number {
      NumbersCons(x, parts);
    } else {
      InsertKeepsNumbers(x, parts[1..]);
      assert parts == [parts[0]] + parts[1..];
      NumbersCons(parts[0], parts[1..]);
      NumbersCons(parts[0], Insert(x, parts[1..]));
    }
  }

  lemma {:induction false} InsertStaysAbove(x: CompletedPart, parts: seq<CompletedPart>, bound: int)
    requires bound <= x.number && forall i :: 0 <= i < |parts| ==> bound <= parts[i].number
    ensures forall i :: 0 <= i < |Insert(x, parts)| ==> bound <= Insert(x, parts)[i].number
  {
    if parts != [] && x.number > parts[0].number {
      InsertStaysAbove(x, parts[1..], bound);
    }
  }

  lemma {:induction false} InsertKeepsOrder(x: CompletedPart, parts: seq<CompletedPart>)
    requires Sorted(parts)
    ensures Sorted(Insert(x, parts))
  {
    if parts != [] && x.number > parts[0].number {
      InsertKeepsOrder(x, parts[1..]);
      InsertStaysAbove(x, parts[1..], parts[0].number);
    }
  }

  lemma {:induction false} SortSorts(parts: seq<CompletedPart>)
    ensures Sorted(SortByNumber(parts))
    ensures multiset(SortByNumber(parts)) == multiset(parts)
    ensures multiset(Numbers(SortByNumber(parts))) == multiset(Numbers(parts))
    ensures |SortByNumber(parts)| == |parts|
  {
    if parts != [] {
      SortSorts(parts[1..]);
      InsertKeepsOrder(parts[0], SortByNumber(parts[1..]));
      InsertKeepsAll(parts[0], SortByNumber(parts[1..]));
      InsertKeepsNumbers(parts[0], SortByNumber(parts[1..]));
      assert parts == [parts[0]] + parts[1..];
      NumbersCons(parts[0], parts[1..]);
    }
  }

  lemma {:induction false} SortedOnceAscends(r: seq<CompletedPart>)
    requires Sorted(r) && forall x :: multiset(Numbers(r))[x] <= 1
    ensures Ascending(Numbers(r))
  {
    forall i, j | 0 <= i < j < |r| ensures Numbers(r)[i] < Numbers(r)[j] {
      OnceMeansDistinct(Numbers(r), i, j);
    }
  }

  lemma {:induction false} SameMembers<T>(a: seq<T>, b: seq<T>, x: T)
    requires multiset(a) == multiset(b)
    ensures x in a <==> x in b
  {
    assert x in multiset(a) <==> x in multiset(b);
  }

  /** Sorting parts of distinct numbers gives a strictly ascending list of the same parts. */
  lemma {:induction false} SortDistinct(parts: seq<CompletedPart>)
    requires forall x :: multiset(Numbers(parts))[x] <= 1
    ensures Ascending(Numbers(SortByNumber(parts)))
    ensures forall p :: p in SortByNumber(parts) <==> p in parts
    ensures forall x :: x in Numbers(SortByNumber(parts)) <==> x in Numbers(parts)
  {
    var r := SortByNumber(parts);
    SortSorts(parts);
    SortedOnceAscends(r);
    forall p ensures p in r <==> p in parts {
      SameMembers(r, parts, p);
    }
    forall x ensures x in Numbers(r) <==> x in Numbers(parts) {
      SameMembers(Numbers(r), Numbers(parts), x);
    }
  }
}
