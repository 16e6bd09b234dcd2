/** The browser client's rules: the uid carried by a scanned QR text, the
    QR URL the admin form submits, the list of hidden products, the
    consumer catalogue without them, and the consumer's verify flow. */
module Client {
  import opened Wrappers
  import opened Strings
  import opened Models
  import opened Server

  /** What precedes the uid in a product's QR URL. */
  const Marker := "uid="

  /** The uid in a scanned QR text: the piece after the first "uid=", up to
      any further "uid="; a text without "uid=" is taken whole. */
  function ExtractUid(txt: string): (uid: string)
    ensures !Contains(txt, Marker) ==> uid == txt
    ensures Contains(txt, Marker) ==> !Contains(uid, Marker)
    ensures Contains(txt, Marker) ==>
              exists i :: FirstOccurrence(txt, Marker, i) && PieceAfter(txt, Marker, i, uid)
  {
    if Contains(txt, Marker) then SecondPiece(txt, Marker).value else txt
  }

  /** The URL the admin form asks the server to put in a product's QR code. */
  function QrUrl(origin: string, uid: string): string {
    origin + "/?uid=" + uid
  }

  /** Appending letters that do not occur in "uid=" cannot create a "uid=". */
  lemma AppendForeign(a: string, b: string)
    requires !Contains(a, Marker)
    requires forall c :: c in b ==> c !in Marker
    ensures !Contains(a + b, Marker)
  {
    ContainsIff(a, Marker);
    ContainsIff(a + b, Marker);
    forall j | 0 <= j && j + 4 <= |a + b|
      ensures !OccursAt(a + b, Marker, j)
    {
      if j + 4 <= |a| {
        assert (a + b)[j..j + 4] == a[j..j + 4];
        assert !OccursAt(a, Marker, j);
      } else {
        var k := if j < |a| then |a| else j;
        assert (a + b)[j..j + 4][k - j] == b[k - |a|];
        assert b[k - |a|] !in Marker;
      }
    }
  }

  /** When `b` opens with "uid=" and `a` holds none, the first "uid=" of
      `a + b` is the one that opens `b`: "uid=" cannot overlap itself. */
  lemma FirstAtJoin(a: string, b: string)
    requires !Contains(a, Marker)
    requires |b| >= 4 && b[..4] == Marker
    ensures FirstOccurrence(a + b, Marker, |a|)
  {
    var s := a + b;
    assert s[|a|..|a| + 4] == b[..4];
    ContainsIff(a, Marker);
    forall j | 0 <= j < |a|
      ensures !OccursAt(s, Marker, j)
    {
      if j + 4 <= |a| {
        assert s[j..j + 4] == a[j..j + 4];
        assert !OccursAt(a, Marker, j);
      } else {
        assert s[|a|] == b[0] == 'u';
        assert j + 4 <= |s| ==> s[j..j + 4][|a| - j] == 'u';
      }
    }
  }

  /** An occurrence past the end of `a` in `a + b` is an occurrence in `b`. */
  lemma OccursInTail(a: string, b: string, pat: string, j: int)
    requires |a| <= j && OccursAt(a + b, pat, j)
    ensures OccursAt(b, pat, j - |a|)
  {
    assert (a + b)[j..j + |pat|] == b[j - |a|..j - |a| + |pat|];
  }

  /** Only one index can be the first occurrence. */
  lemma FirstIsUnique(s: string, i: int, k: int)
    requires FirstOccurrence(s, Marker, i) && FirstOccurrence(s, Marker, k)
    ensures i == k
  {
    assert i < k ==> !OccursAt(s, Marker, i);
    assert k < i ==> !OccursAt(s, Marker, k);
  }

  /** Where the first "uid=" is known, the extracted uid is the piece after it. */
  lemma ExtractAfterFirst(s: string, p: int)
    requires FirstOccurrence(s, Marker, p)
    ensures PieceAfter(s, Marker, p, ExtractUid(s))
  {
    ContainsIff(s, Marker);
    var i :| FirstOccurrence(s, Marker, i) && PieceAfter(s, Marker, i, ExtractUid(s));
    FirstIsUnique(s, i, p);
  }

  /** A tail without "uid=" has no occurrence past its start. */
  lemma NoMarkerInTail(a: string, b: string)
    requires !Contains(b, Marker)
    ensures forall j :: |a| <= j ==> !OccursAt(a + b, Marker, j)
  {
    ContainsIff(b, Marker);
    forall j | |a| <= j && OccursAt(a + b, Marker, j)
      ensures false
    {
      OccursInTail(a, b, Marker, j);
    }
  }

  /** Scanning the QR URL of a product gives back its uid, as long as
      neither the origin nor the uid holds "uid=". */
  lemma QrRoundTrip(origin: string, uid: string)
    requires !Contains(origin, Marker) && !Contains(uid, Marker)
    ensures ExtractUid(QrUrl(origin, uid)) == uid
  {
    var head := origin + "/?";
    var s := head + (Marker + uid);
    assert QrUrl(origin, uid) == s;
    AppendForeign(origin, "/?");
    FirstAtJoin(head, Marker + uid);
    ExtractAfterFirst(s, |head|);
    assert s == (head + Marker) + uid;
    NoMarkerInTail(head + Marker, uid);
    assert s[|head| + 4..] == uid;
  }

  /** A uid that itself holds "uid=" does not survive the round trip: the
      scan keeps only what comes before its own "uid=". */
  lemma QrCutsAtInnerMarker(origin: string, a: string, b: string)
    requires !Contains(origin, Marker) && !Contains(a, Marker)
    ensures ExtractUid(QrUrl(origin, a + Marker + b)) == a
  {
    var head := origin + "/?";
    var tail := a + (Marker + b);
    assert QrUrl(origin, a + Marker + b) == head + Marker + tail;
    AppendForeign(origin, "/?");
    FirstAtJoin(a, Marker + b);
    PieceOfJoin(head, tail, |a|);
    assert tail[..|a|] == a;
  }

  /** Behind a head without "uid=", the uid read is the tail up to its own
      first "uid=". */
  lemma PieceOfJoin(head: string, tail: string, k: nat)
    requires !Contains(head, Marker)
    requires FirstOccurrence(tail, Marker, k)
    ensures ExtractUid(head + Marker + tail) == tail[..k]
  {
    JoinPiece(head, tail);
    InnerMarker(head + Marker, tail, k, ExtractUid(head + Marker + tail));
    assert (head + Marker + tail)[|head| + 4..|head| + 4 + k] == tail[..k];
  }

  /** Behind a head without "uid=", the uid read starts right after the
      joining "uid=". */
  lemma JoinPiece(head: string, tail: string)
    requires !Contains(head, Marker)
    ensures PieceAfter(head + Marker + tail, Marker, |head|, ExtractUid(head + Marker + tail))
  {
    var s := head + Marker + tail;
    assert s == head + (Marker + tail);
    FirstAtJoin(head, Marker + tail);
    ExtractAfterFirst(s, |head|);
  }

  /** A piece read from `a + tail` right after `a`, where `tail` first
      holds "uid=" at `k`, is `k` letters long. */
  lemma InnerMarker(a: string, tail: string, k: nat, r: string)
    requires |a| >= 4 && FirstOccurrence(tail, Marker, k)
    requires PieceAfter(a + tail, Marker, |a| - 4, r)
    ensures |r| == k
  {
    var s := a + tail;
    assert s[|a| + k..|a| + k + 4] == tail[k..k + 4];
    assert OccursAt(s, Marker, |a| + k);
    if |r| < k {
      OccursInTail(a, tail, Marker, |a| + |r|);
      assert false;
    }
  }

  /** `list.filter(id => id !== u)`. */
  function Without(list: seq<string>, u: string): (r: seq<string>)
    ensures forall v :: v in r <==> v in list && v != u
    ensures IsSubsequence(r, list)
    ensures multiset(r) == multiset(list)[u := 0]
  {
    if list == [] then []
    else
      assert list == [list[0]] + list[1..];
      if list[0] == u then Without(list[1..], u)
      else [list[0]] + Without(list[1..], u)
  }

  /** `a` is `b` with some elements dropped, the rest in their order. */
  ghost predicate IsSubsequence<T>(a: seq<T>, b: seq<T>)
    decreases |b|
  {
    a == [] || (b != [] && ((a[0] == b[0] && IsSubsequence(a[1..], b[1..])) || IsSubsequence(a, b[1..])))
  }

  /** The hidden list after `toggleHide(u)`: `u` removed if it was hidden,
      appended if it was not. */
  function Toggled(hidden: seq<string>, u: string): (r: seq<string>)
    ensures u in r <==> u !in hidden
    ensures forall v :: v != u ==> (v in r <==> v in hidden)
  {
    if u in hidden then Without(hidden, u) else hidden + [u]
  }

  /** Removing what is not there changes nothing. */
  lemma {:induction false} WithoutAbsent(list: seq<string>, u: string)
    requires u !in list
    ensures Without(list, u) == list
  {
    if list != [] {
      WithoutAbsent(list[1..], u);
      assert list == [list[0]] + list[1..];
    }
  }

  /** Toggling the same id twice gives back the same hidden ids: exactly the
      same list when the id was not hidden, the same set (with the id moved
      to the end) when it was. */
  lemma ToggleTwice(hidden: seq<string>, u: string)
    ensures forall v :: v in Toggled(Toggled(hidden, u), u) <==> v in hidden
    ensures u !in hidden ==> Toggled(Toggled(hidden, u), u) == hidden
    ensures u in hidden ==> Toggled(Toggled(hidden, u), u) == Without(hidden, u) + [u]
  {
    if u !in hidden {
      WithoutAbsent(hidden, u);
      assert Without(hidden + [u], u) == Without(hidden, u) by {
        WithoutAppend(hidden, u);
      }
    }
  }

  lemma {:induction false} WithoutAppend(list: seq<string>, u: string)
    ensures Without(list + [u], u) == Without(list, u)
  {
    if list == [] {
      assert [u][1..] == [];
    } else {
      assert (list + [u])[1..] == list[1..] + [u];
      WithoutAppend(list[1..], u);
    }
  }

  /** `products.filter(p => !hiddenList.includes(p.uid))`. */
  function VisibleProducts(products: seq<ProductRecord>, hidden: seq<string>): (r: seq<ProductRecord>)
    ensures forall p :: p in r <==> p in products && p.uid !in hidden
    ensures IsSubsequence(r, products)
  {
    if products == [] then []
    else if products[0].uid in hidden then VisibleProducts(products[1..], hidden)
    else [products[0]] + VisibleProducts(products[1..], hidden)
  }

  /** `uid || checkUid`: the argument when one is given, else the typed id. */
  function Target(arg: string, typed: string): string {
    if arg != "" then arg else typed
  }

  /** What a verify attempt ends with: an alert or the detail view. */
  datatype Outcome = NeedsUid | HiddenProduct | NotFound | Shown

  datatype View = ListView | DetailView

  const ClientLocation := "Web Client"

  /** The consumer page. */
  class UserPage {
    var view: View
    var detail: Option<Verdict>
    var checkUid: string
    var products: seq<ProductRecord>

    /** Mounting loads the catalogue and drops the hidden products. */
    constructor (server: Backend, hidden: seq<string>)
      requires server.Valid()
      ensures view == ListView && detail == None && checkUid == ""
      ensures products == VisibleProducts(server.ListProducts(), hidden)
    {
      view, detail, checkUid := ListView, None, "";
      products := VisibleProducts(server.ListProducts(), hidden);
    }

    /** The detail view is on screen. */
    predicate ShowsDetail()
      reads this
    {
      view == DetailView && detail.Some?
    }

    /** Typing in the id box. */
    method TypeUid(s: string)
      modifies this`checkUid
      ensures checkUid == s
    {
      checkUid := s;
    }

    /** The back button of the detail view. */
    method BackToList()
      modifies this`view
      ensures view == ListView
    {
      view := ListView;
    }

    /** `verify(uid)`: an empty target and a hidden target are refused
        before any lookup; otherwise the server is asked, and only a genuine
        answer opens the detail view and records a scan from "Web Client".
        `reach` and `now` are the server's store availability and clock. */
    method Verify(server: Backend, uid: string, hidden: seq<string>, reach: Reach, now: int)
      returns (outcome: Outcome)
      requires server.Valid()
      modifies this`view, this`detail, server
      ensures server.Valid()
      ensures outcome == NeedsUid <==> Target(uid, checkUid) == ""
      ensures outcome == HiddenProduct <==> Target(uid, checkUid) != "" && Target(uid, checkUid) in hidden
      ensures outcome != Shown ==>
                && view == old(view) && detail == old(detail)
                && server.products == old(server.products) && server.history == old(server.history)
      ensures server.order == old(server.order) && server.chain == old(server.chain)
      ensures outcome == Shown ==> ShowsDetail()
      ensures var target := Target(uid, checkUid);
              target != "" && target !in hidden ==>
                var v := Server.Verify(old(server.products), old(server.chain), target, reach, server.dateString);
                && (outcome == Shown <==> v.Genuine?)
                && (v.Genuine? ==>
                      && view == DetailView && detail == Some(v.(uid := target))
                      && server.products == Bump(old(server.products), target)
                      && server.history == old(server.history)
                         + [ScanEvent(target, ClientLocation, server.dateTimeString(now), now)])
    {
      var target := Target(uid, checkUid);
      if target == "" {
        return NeedsUid;
      }
      if target in hidden {
        return HiddenProduct;
      }
      var data := Server.Verify(server.products, server.chain, target, reach, server.dateString);
      if data.Genuine? {
        detail := Some(data.(uid := target));
        view := DetailView;
        server.RecordScan(target, ClientLocation, now);
        outcome := Shown;
      } else {
        outcome := NotFound;
      }
    }
  }

  /** The fields of the admin page's create form. */
  datatype CreateForm = CreateForm(uid: string, name: string, batchNumber: string,
                                   productImage: string, description: string)

  /** The admin page. */
  class AdminPage {
    var hidden: seq<string>    // the hidden list, mirrored to local storage on every change

    constructor (stored: seq<string>)
      ensures hidden == stored
    {
      hidden := stored;
    }

    /** The eye button of a product row. */
    method ToggleHide(u: string)
      modifies this
      ensures hidden == Toggled(old(hidden), u)
    {
      hidden := Toggled(hidden, u);
    }

    /** `handleCreate`: submits the form with the expiry in seconds and the
        QR URL built from the page's origin. The browser submits the form
        only with the id, name and batch filled in. */
    method HandleCreate(server: Backend, form: CreateForm, origin: string, expiryUnix: int,
                        now: int, chainReply: Option<string>)
      returns (ok: bool)
      requires server.Valid()
      requires form.uid != "" && form.name != "" && form.batchNumber != ""
      modifies server
      ensures server.Valid()
      ensures ok <==> form.uid !in old(server.products) && form.uid != "" && chainReply.Some?
      ensures ok ==> form.uid in server.products
                     && server.products[form.uid].qrImage == server.qrEncode(QrUrl(origin, form.uid))
                     && server.products[form.uid].txHash == chainReply.value
      ensures ok ==>
                && server.products == old(server.products)[form.uid := NewProduct(
                     CreateRequest(form.uid, form.name, form.batchNumber, expiryUnix,
                                   QrUrl(origin, form.uid), form.productImage, form.description),
                     chainReply.value, server.qrEncode(QrUrl(origin, form.uid)),
                     server.dateString(expiryUnix * 1000), server.dateString(now))]
                && server.order == old(server.order) + [form.uid]
      ensures !ok ==> server.products == old(server.products) && server.order == old(server.order)
      ensures server.history == old(server.history)
      ensures form.uid in old(server.products) || chainReply.None? ==> server.chain == old(server.chain)
      ensures form.uid !in old(server.products) && chainReply.Some? ==>
                server.chain == old(server.chain)[form.uid := ChainRecord(form.name, form.batchNumber, expiryUnix)]
    {
      var req := CreateRequest(form.uid, form.name, form.batchNumber, expiryUnix,
                               QrUrl(origin, form.uid), form.productImage, form.description);
      var resp := server.CreateProduct(req, now, chainReply);
      ok := resp.Success?;
    }
  }

  /** A product's QR code, scanned, leads the consumer to that product's
      database record. */
  lemma ScannedQrFindsProduct(db: map<string, ProductRecord>, chain: map<string, ChainRecord>,
                              origin: string, uid: string, chainUp: bool, dateString: int -> string)
    requires Catalogue(db) && uid in db
    requires !Contains(origin, Marker) && !Contains(uid, Marker)
    ensures ExtractUid(QrUrl(origin, uid)) == uid
    ensures Verify(db, chain, ExtractUid(QrUrl(origin, uid)), Reach(true, chainUp), dateString)
         == Genuine(uid, db[uid].name, db[uid].batchNumber, db[uid].expiryDate,
                    db[uid].productImage, db[uid].description, Database)
  {
    QrRoundTrip(origin, uid);
  }
}
