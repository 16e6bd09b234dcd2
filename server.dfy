/** The backend: a product store (the document database), an attestation
    ledger written on every create that passes the duplicate check, and the
    append-only scan history, with the handlers create_product, verify/:uid,
    record_scan, scan_history and products as operations on them. */
module Server {
  import opened Wrappers
  import opened Models
  import ScanOrder

  const DefaultProductImage := "https://vinamilk.com.vn/static/uploads/2021/05/Sua-tuoi-tiet-trung-Vinamilk-100-tach-beo-khong-duong-1.jpg"
  const DefaultDescription := "Sản phẩm sữa tươi tiệt trùng, giàu dinh dưỡng, tốt cho sức khỏe."
  const PlaceholderImage := "https://via.placeholder.com/300?text=No+Image"
  const RecoveredDescription := "Dữ liệu được khôi phục từ Blockchain (Chưa đồng bộ về Database)."
  const UnknownLocation := "Không xác định"
  const DefaultClientUrl := "http://localhost:5173?uid="
  const HistoryLimit := 50

  /** The body of a create_product request; a field left out is "". */
  datatype CreateRequest = CreateRequest(
    uid: string,
    name: string,
    batchNumber: string,
    expiryUnix: int,
    qrUrl: string,
    productImage: string,
    description: string)

  /** Why create_product answered `status: "error"`. */
  datatype CreateError =
    | DuplicateUid     // a product with this uid exists; nothing was written
    | ChainFailed      // the ledger write threw; nothing was written
    | Rejected         // the record failed validation after the ledger write

  datatype Source = Database | Blockchain

  /** The answer of verify/:uid. */
  datatype Verdict =
    | Invalid
    | Genuine(uid: string, name: string, batchNumber: string, expiryDate: string,
              productImage: string, description: string, source: Source)

  /** Whether each store answers; a lookup that throws makes the answer `Invalid`. */
  datatype Reach = Reach(database: bool, chain: bool)

  /** JavaScript's `s || fallback` on a string. */
  function OrDefault(s: string, fallback: string): string {
    if s == "" then fallback else s
  }

  /** The URL the QR code of a new product encodes. */
  function ClientUrl(req: CreateRequest): string {
    OrDefault(req.qrUrl, DefaultClientUrl + req.uid)
  }

  /** The document create_product stores once the ledger returned `txHash`. */
  function NewProduct(req: CreateRequest, txHash: string, qrImage: string,
                      expiryDate: string, createdAt: string): (p: ProductRecord)
    ensures Fresh(p)
    ensures p.uid == req.uid && p.txHash == txHash && p.expiryUnix == req.expiryUnix
    ensures req.productImage != "" ==> p.productImage == req.productImage
    ensures req.description != "" ==> p.description == req.description
  {
    ProductRecord(req.uid, req.name, req.batchNumber, expiryDate, req.expiryUnix, createdAt,
                  txHash, qrImage, OrDefault(req.productImage, DefaultProductImage),
                  OrDefault(req.description, DefaultDescription), 0)
  }

  /** verify/:uid: the database first, the ledger only when the database has
      no such uid, `Invalid` when neither has it or a lookup fails.
      `dateString` is the display form of an instant in milliseconds. The
      route's `:uid` segment is never empty. */
  function Verify(db: map<string, ProductRecord>, chain: map<string, ChainRecord>,
                  uid: string, reach: Reach, dateString: int -> string): (r: Verdict)
    requires uid != ""
    ensures r.Genuine? <==> reach.database && (uid in db || (reach.chain && uid in chain))
    ensures r.Genuine? ==> (r.source == Database <==> uid in db)
    ensures r.Genuine? && r.source == Blockchain ==> r.uid == uid
  {
    if !reach.database then Invalid
    else if uid in db then
      var p := db[uid];
      Genuine(p.uid, p.name, p.batchNumber, p.expiryDate, p.productImage, p.description, Database)
    else if !reach.chain then Invalid
    else if uid in chain then
      var c := chain[uid];
      Genuine(uid, c.name, c.batchNumber, dateString(c.expiryUnix * 1000),
              PlaceholderImage, RecoveredDescription, Blockchain)
    else Invalid
  }

  /** A uid the database holds is answered from the database, with its
      fields verbatim, whatever the ledger holds and whether it answers. */
  lemma DatabaseWins(db: map<string, ProductRecord>, chain: map<string, ChainRecord>,
                     uid: string, chainUp: bool, dateString: int -> string)
    requires uid != "" && uid in db
    ensures Verify(db, chain, uid, Reach(true, chainUp), dateString)
         == Verify(db, map[], uid, Reach(true, false), dateString)
    ensures Verify(db, chain, uid, Reach(true, chainUp), dateString)
         == Genuine(db[uid].uid, db[uid].name, db[uid].batchNumber, db[uid].expiryDate,
                    db[uid].productImage, db[uid].description, Database)
  {
  }

  /** A uid only the ledger holds is recovered from it, with the fixed
      placeholder image and the fixed recovery notice. */
  lemma ChainFallback(db: map<string, ProductRecord>, chain: map<string, ChainRecord>,
                      uid: string, dateString: int -> string)
    requires uid != "" && uid !in db && uid in chain
    ensures Verify(db, chain, uid, Reach(true, true), dateString)
         == Genuine(uid, chain[uid].name, chain[uid].batchNumber,
                    dateString(chain[uid].expiryUnix * 1000),
                    PlaceholderImage, RecoveredDescription, Blockchain)
  {
  }

  /** On a well-formed catalogue every genuine answer names the uid asked for. */
  lemma VerifyEchoesUid(db: map<string, ProductRecord>, chain: map<string, ChainRecord>,
                        uid: string, reach: Reach, dateString: int -> string)
    requires Catalogue(db) && uid != ""
    ensures Verify(db, chain, uid, reach, dateString).Genuine? ==>
            Verify(db, chain, uid, reach, dateString).uid == uid
  {
  }

  /** A product just created is verified from the database with the fields
      it was submitted with, its image and description defaulted when empty. */
  lemma CreatedIsVerified(db: map<string, ProductRecord>, chain: map<string, ChainRecord>,
                          req: CreateRequest, txHash: string, qrImage: string,
                          expiryDate: string, createdAt: string, chainUp: bool,
                          dateString: int -> string)
    requires req.uid != ""
    ensures Verify(db[req.uid := NewProduct(req, txHash, qrImage, expiryDate, createdAt)],
                   chain, req.uid, Reach(true, chainUp), dateString)
         == Genuine(req.uid, req.name, req.batchNumber, expiryDate,
                    OrDefault(req.productImage, DefaultProductImage),
                    OrDefault(req.description, DefaultDescription), Database)
  {
  }

  /** `$inc: {scan_count: 1}` on the product filed under `uid`, if any. */
  function Bump(db: map<string, ProductRecord>, uid: string): (r: map<string, ProductRecord>)
    ensures r.Keys == db.Keys
    ensures forall u :: u in db ==> r[u].scanCount == db[u].scanCount + (if u == uid then 1 else 0)
    ensures forall u :: u in db ==> r[u] == db[u].(scanCount := r[u].scanCount)
  {
    if uid in db then db[uid := db[uid].(scanCount := db[uid].scanCount + 1)] else db
  }

  /** The store after one scan of each uid in `uids`, in order. */
  function BumpAll(db: map<string, ProductRecord>, uids: seq<string>): (r: map<string, ProductRecord>)
    ensures r.Keys == db.Keys
  {
    if uids == [] then db else Bump(BumpAll(db, uids[..|uids| - 1]), uids[|uids| - 1])
  }

  /** No scan is lost: after a run of scans a product's counter has grown by
      exactly the number of scans of its uid. */
  lemma {:induction false} ScanCountsAdd(db: map<string, ProductRecord>, uids: seq<string>, u: string)
    requires u in db
    ensures u in BumpAll(db, uids)
    ensures BumpAll(db, uids)[u].scanCount == db[u].scanCount + multiset(uids)[u]
  {
    if uids != [] {
      var init := uids[..|uids| - 1];
      ScanCountsAdd(db, init, u);
      assert uids == init + [uids[|uids| - 1]];
    }
  }

  /** The records in `order`, last-created first. */
  function NewestFirstRecords(db: map<string, ProductRecord>, order: seq<string>): (r: seq<ProductRecord>)
    requires forall u :: u in order ==> u in db
    ensures |r| == |order|
    ensures forall i :: 0 <= i < |r| ==> r[i] == db[order[|order| - 1 - i]]
  {
    if order == [] then []
    else [db[order[|order| - 1]]] + NewestFirstRecords(db, order[..|order| - 1])
  }

  /** A list without repetitions is exactly as long as its set of elements. */
  lemma {:induction false} DistinctCard(order: seq<string>)
    requires forall i, j :: 0 <= i < j < |order| ==> order[i] != order[j]
    ensures |set u | u in order| == |order|
  {
    if order != [] {
      var init := order[..|order| - 1];
      var last := order[|order| - 1];
      DistinctCard(init);
      assert (set u | u in order) == (set u | u in init) + {last};
      assert last !in init;
    }
  }

  /** A catalogue listed along a repetition-free `order` of its uids shows
      each record exactly once. */
  lemma ListsEachOnce(db: map<string, ProductRecord>, order: seq<string>)
    requires Catalogue(db)
    requires forall i, j :: 0 <= i < j < |order| ==> order[i] != order[j]
    requires forall u :: u in db <==> u in order
    ensures |NewestFirstRecords(db, order)| == |db|
    ensures forall u :: u in db ==> db[u] in NewestFirstRecords(db, order)
    ensures forall p :: p in NewestFirstRecords(db, order) ==> p.uid in db && db[p.uid] == p
  {
    OrderCoversKeys(db, order);
    EveryRecordListed(db, order);
    OnlyRecordsListed(db, order);
  }

  lemma EveryRecordListed(db: map<string, ProductRecord>, order: seq<string>)
    requires forall u :: u in db <==> u in order
    ensures forall u :: u in db ==> db[u] in NewestFirstRecords(db, order)
  {
    var r := NewestFirstRecords(db, order);
    forall u | u in db
      ensures db[u] in r
    {
      var i := IndexIn(order, u);
      assert r[|order| - 1 - i] == db[u];
    }
  }

  lemma OnlyRecordsListed(db: map<string, ProductRecord>, order: seq<string>)
    requires Catalogue(db)
    requires forall u :: u in order ==> u in db
    ensures forall p :: p in NewestFirstRecords(db, order) ==> p.uid in db && db[p.uid] == p
  {
    var r := NewestFirstRecords(db, order);
    forall p | p in r
      ensures p.uid in db && db[p.uid] == p
    {
      var i :| 0 <= i < |r| && r[i] == p;
    }
  }

  /** A repetition-free list of exactly the keys is as long as the map. */
  lemma OrderCoversKeys(db: map<string, ProductRecord>, order: seq<string>)
    requires forall i, j :: 0 <= i < j < |order| ==> order[i] != order[j]
    requires forall u :: u in db <==> u in order
    ensures |order| == |db|
  {
    DistinctCard(order);
    assert (set u | u in order) == db.Keys;
  }

  /** Storing a record under a new, non-empty uid keeps the catalogue, its
      creation order and its listing in step. */
  lemma StoreKeepsShape(db: map<string, ProductRecord>, order: seq<string>, p: ProductRecord)
    requires Catalogue(db)
    requires forall i, j :: 0 <= i < j < |order| ==> order[i] != order[j]
    requires forall u :: u in db <==> u in order
    requires p.uid != "" && p.uid !in db
    ensures Catalogue(db[p.uid := p])
    ensures forall i, j :: 0 <= i < j < |order + [p.uid]| ==> (order + [p.uid])[i] != (order + [p.uid])[j]
    ensures forall u :: u in db[p.uid := p] <==> u in order + [p.uid]
    ensures NewestFirstRecords(db[p.uid := p], order + [p.uid]) == [p] + NewestFirstRecords(db, order)
  {
    InsertKeepsCatalogue(db, p);
    NewestFirstAppend(db, order, p);
  }

  /** Creating a product puts it in front of the listing and leaves the rest
      as it was. */
  lemma NewestFirstAppend(db: map<string, ProductRecord>, order: seq<string>, p: ProductRecord)
    requires forall u :: u in order ==> u in db
    requires p.uid !in db
    ensures NewestFirstRecords(db[p.uid := p], order + [p.uid])
         == [p] + NewestFirstRecords(db, order)
  {
    var db' := db[p.uid := p];
    var order' := order + [p.uid];
    assert order'[..|order'| - 1] == order;
    var a := NewestFirstRecords(db', order);
    var b := NewestFirstRecords(db, order);
    assert |a| == |b|;
    forall i | 0 <= i < |a|
      ensures a[i] == b[i]
    {
      assert order[|order| - 1 - i] in db;
    }
  }

  class Backend {
    var products: map<string, ProductRecord>
    var order: seq<string>                   // uids in creation (`_id`) order
    var chain: map<string, ChainRecord>
    var history: seq<ScanEvent>
    const qrEncode: string -> string         // QR image of a URL
    const dateString: int -> string          // date display form of an instant in milliseconds
    const dateTimeString: int -> string      // date-and-time display form of an instant in milliseconds

    ghost predicate Valid()
      reads this
    {
      && Catalogue(products)
      && (forall i, j :: 0 <= i < j < |order| ==> order[i] != order[j])
      && (forall u :: u in products <==> u in order)
    }

    /** The service over the stores as it finds them on start-up: a
        well-formed catalogue with its creation order, a ledger that may hold
        attestations the database lacks (the database can lose data, the
        ledger not), and the scan history so far. */
    constructor (products: map<string, ProductRecord>, order: seq<string>,
                 ledger: map<string, ChainRecord>, history: seq<ScanEvent>,
                 qrEncode: string -> string, dateString: int -> string,
                 dateTimeString: int -> string)
      requires Catalogue(products)
      requires forall i, j :: 0 <= i < j < |order| ==> order[i] != order[j]
      requires forall u :: u in products <==> u in order
      ensures Valid()
      ensures this.products == products && this.order == order
      ensures chain == ledger && this.history == history
      ensures this.qrEncode == qrEncode && this.dateString == dateString
      ensures this.dateTimeString == dateTimeString
    {
      this.products, this.order, chain, this.history := products, order, ledger, history;
      this.qrEncode, this.dateString, this.dateTimeString := qrEncode, dateString, dateTimeString;
    }

    /** GET /products: every product, newest-created first. */
    function ListProducts(): (r: seq<ProductRecord>)
      reads this
      requires Valid()
      ensures |r| == |products|
      ensures forall u :: u in products ==> products[u] in r
      ensures forall p :: p in r ==> p.uid in products && products[p.uid] == p
    {
      ListsEachOnce(products, order);
      NewestFirstRecords(products, order)
    }

    /** POST /create_product. `now` is the clock in milliseconds and
        `chainReply` what the ledger write returned (`None`: it threw). */
    method CreateProduct(req: CreateRequest, now: int, chainReply: Option<string>)
      returns (resp: Result<string, CreateError>)
      requires Valid()
      modifies this
      ensures Valid()
      ensures history == old(history)
      ensures resp.Success? <==> req.uid !in old(products) && chainReply.Some? && req.uid != ""
      ensures req.uid in old(products) ==> resp == Failure(DuplicateUid)
      ensures req.uid !in old(products) && chainReply.None? ==> resp == Failure(ChainFailed)
      ensures req.uid == "" && chainReply.Some? ==> resp == Failure(Rejected)
      ensures resp.Failure? && resp.error != Rejected ==> chain == old(chain)
      ensures resp.Failure? ==> products == old(products) && order == old(order)
      ensures req.uid !in old(products) && chainReply.Some? ==>
                chain == old(chain)[req.uid := ChainRecord(req.name, req.batchNumber, req.expiryUnix)]
      ensures resp.Success? ==>
                && resp.value == chainReply.value
                && products == old(products)[req.uid := NewProduct(req, resp.value,
                     qrEncode(ClientUrl(req)), dateString(req.expiryUnix * 1000), dateString(now))]
                && order == old(order) + [req.uid]
                && ListProducts() == [products[req.uid]] + old(ListProducts())
    {
      if req.uid in products {
        resp := Failure(DuplicateUid);
      } else if chainReply.None? {
        resp := Failure(ChainFailed);
      } else {
        var txHash := chainReply.value;
        chain := chain[req.uid := ChainRecord(req.name, req.batchNumber, req.expiryUnix)];
        if req.uid == "" {
          resp := Failure(Rejected);
        } else {
          var p := NewProduct(req, txHash, qrEncode(ClientUrl(req)),
                              dateString(req.expiryUnix * 1000), dateString(now));
          Store(p);
          resp := Success(txHash);
        }
      }
    }

    /** `newProduct.save()` of a record whose uid is new and not empty. */
    method Store(p: ProductRecord)
      requires Valid() && p.uid != "" && p.uid !in products
      modifies this
      ensures Valid()
      ensures history == old(history) && chain == old(chain)
      ensures products == old(products)[p.uid := p] && order == old(order) + [p.uid]
      ensures ListProducts() == [p] + old(ListProducts())
    {
      StoreKeepsShape(products, order, p);
      products := products[p.uid := p];
      order := order + [p.uid];
    }

    /** POST /record_scan. `location` "" stands for a missing location;
        `now` is the clock in milliseconds. */
    method RecordScan(uid: string, location: string, now: int)
      requires Valid()
      modifies this
      ensures Valid()
      ensures order == old(order) && chain == old(chain)
      ensures products == Bump(old(products), uid)
      ensures history == old(history) + [ScanEvent(uid, OrDefault(location, UnknownLocation),
                                                   dateTimeString(now), now)]
    {
      products := Bump(products, uid);
      history := history + [ScanEvent(uid, OrDefault(location, UnknownLocation),
                                      dateTimeString(now), now)];
    }

    /** GET /scan_history: the 50 newest entries, newest first. */
    function ScanHistory(): (r: seq<ScanEvent>)
      reads this
      ensures |r| == if |history| < HistoryLimit then |history| else HistoryLimit
      ensures ScanOrder.NewestFirst(r)
      ensures multiset(r) <= multiset(history)
    {
      ScanOrder.Latest(history, HistoryLimit)
    }
  }

  /** Where `u` sits in a list that holds it. */
  function IndexIn(order: seq<string>, u: string): (i: nat)
    requires u in order
    ensures i < |order| && order[i] == u
  {
    if order[0] == u then 0 else 1 + IndexIn(order[1..], u)
  }
}
