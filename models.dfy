/** The two document shapes of the product store: a product record and a
    scan-history entry, and the attestation the ledger keeps per product. */
module Models {

  /** A product document. Absent string fields are the empty string. */
  datatype ProductRecord = ProductRecord(
    uid: string,
    name: string,
    batchNumber: string,
    expiryDate: string,     // display form of the expiry
    expiryUnix: int,        // expiry in seconds since the epoch
    createdAt: string,
    txHash: string,         // the reference the ledger returned
    qrImage: string,        // base64 image of the QR code
    productImage: string,
    description: string,
    scanCount: nat)

  /** A scan-history document. `uid` is a plain string: nothing ties it to a
      product, so entries may name uids no product has. */
  datatype ScanEvent = ScanEvent(uid: string, location: string, time: string, timestamp: int)

  /** What the ledger holds for a uid. */
  datatype ChainRecord = ChainRecord(name: string, batchNumber: string, expiryUnix: int)

  /** `uid` is required and unique: every record is filed under its own
      uid, and no record has an empty one (Mongoose's `required` rejects ""). */
  ghost predicate Catalogue(db: map<string, ProductRecord>) {
    forall u :: u in db ==> db[u].uid == u && u != ""
  }

  /** A product as first stored: its scan counter starts at its default, 0. */
  predicate Fresh(p: ProductRecord) {
    p.scanCount == 0
  }

  /** Filing a record with a new, non-empty uid keeps the catalogue
      well-formed and adds exactly one record. */
  lemma InsertKeepsCatalogue(db: map<string, ProductRecord>, p: ProductRecord)
    requires Catalogue(db)
    requires p.uid != "" && p.uid !in db
    ensures Catalogue(db[p.uid := p])
    ensures |db[p.uid := p]| == |db| + 1
    ensures forall u :: u in db ==> db[p.uid := p][u] == db[u]
  {
  }
}
