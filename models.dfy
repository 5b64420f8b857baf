/** The three tables (backend/app/core/models.py) and the database session that holds them. */
module Models {

  import opened Wrappers
  import opened Dates

  /** A primary key, as its canonical text (so `str(id)` is the id itself). */
  type Uuid = string

  /** A `datetime.now` reading, supplied by the caller. */
  type Timestamp = int

  datatype User = User(id: Uuid, email: string, hashedPassword: string, createdAt: Timestamp)

  datatype Item = Item(id: Uuid, receiptId: Uuid, name: string, quantity: int, price: real)

  /** `date` is nullable; every other column is required. */
  datatype Receipt = Receipt(
    id: Uuid, userId: Uuid, filename: string, merchant: string, date: Option<Date>,
    total: real, rawOcrText: string, createdAt: Timestamp)

  datatype Tables = Tables(users: map<Uuid, User>, receipts: map<Uuid, Receipt>, items: map<Uuid, Item>)

  /** The unique index on `User.email`. */
  predicate UniqueEmails(users: map<Uuid, User>) {
    forall a, b :: a in users && b in users && users[a].email == users[b].email ==> a == b
  }

  /** Keys, uniqueness and foreign keys: every row is stored under its own id, emails are unique,
      every receipt's user exists, a stored date is a calendar date, and every item's receipt exists. */
  predicate Inv(t: Tables) {
    && (forall k :: k in t.users ==> t.users[k].id == k)
    && UniqueEmails(t.users)
    && (forall k :: k in t.receipts ==> t.receipts[k].id == k && t.receipts[k].userId in t.users)
    && (forall k :: k in t.receipts && t.receipts[k].date.Some? ==> ValidDate(t.receipts[k].date.value))
    && (forall k :: k in t.items ==> t.items[k].id == k && t.items[k].receiptId in t.receipts)
  }

  /** `select(Item).where(Item.receipt_id == rid)`, as a set of keys. */
  function ItemsOf(items: map<Uuid, Item>, rid: Uuid): (ks: set<Uuid>)
    ensures forall k :: k in ks <==> k in items && items[k].receiptId == rid
  {
    set k | k in items && items[k].receiptId == rid
  }

  /** `select(Receipt).where(Receipt.user_id == uid)`, as a set of keys. */
  function ReceiptsOf(receipts: map<Uuid, Receipt>, uid: Uuid): (ks: set<Uuid>)
    ensures forall k :: k in ks <==> k in receipts && receipts[k].userId == uid
  {
    set k | k in receipts && receipts[k].userId == uid
  }

  /** The rows a successful extraction commits: one receipt and its item rows. */
  function WithReceipt(t: Tables, r: Receipt, rows: map<Uuid, Item>): (t': Tables)
    ensures t'.users == t.users
    ensures t'.receipts.Keys == t.receipts.Keys + {r.id} && t'.receipts[r.id] == r
    ensures forall k :: k in t.receipts && k != r.id ==> t'.receipts[k] == t.receipts[k]
    ensures t'.items.Keys == t.items.Keys + rows.Keys
    ensures forall k :: k in rows ==> t'.items[k] == rows[k]
    ensures forall k :: k in t.items && k !in rows ==> t'.items[k] == t.items[k]
  {
    Tables(t.users, t.receipts[r.id := r], t.items + rows)
  }

  /** A successful delete: the receipt and every item that references it are gone, nothing else is touched. */
  function WithoutReceipt(t: Tables, rid: Uuid): (t': Tables)
    ensures t'.users == t.users
    ensures t'.receipts.Keys == t.receipts.Keys - {rid}
    ensures forall k :: k in t'.receipts ==> t'.receipts[k] == t.receipts[k]
    ensures t'.items.Keys == t.items.Keys - ItemsOf(t.items, rid)
    ensures forall k :: k in t'.items ==> t'.items[k] == t.items[k]
  {
    Tables(t.users, t.receipts - {rid}, map k | k in t.items && t.items[k].receiptId != rid :: t.items[k])
  }

  /** A successful registration: one user row stored under its id, the other tables untouched. */
  function WithUser(t: Tables, u: User): (t': Tables)
    ensures t'.users.Keys == t.users.Keys + {u.id} && t'.users[u.id] == u
    ensures forall k :: k in t.users && k != u.id ==> t'.users[k] == t.users[k]
    ensures t'.receipts == t.receipts && t'.items == t.items
  {
    Tables(t.users[u.id := u], t.receipts, t.items)
  }

  /** Adding a receipt for an existing user, with fresh item rows that all point at it, keeps the invariant. */
  lemma WithReceiptKeepsInv(t: Tables, r: Receipt, rows: map<Uuid, Item>)
    requires Inv(t)
    requires r.id !in t.receipts && r.userId in t.users
    requires r.date.Some? ==> ValidDate(r.date.value)
    requires rows.Keys !! t.items.Keys
    requires forall k :: k in rows ==> rows[k].id == k && rows[k].receiptId == r.id
    ensures Inv(WithReceipt(t, r, rows))
  {
  }

  /** After the save, the new receipt's items are exactly the new rows, and every other receipt keeps its items. */
  lemma WithReceiptItems(t: Tables, r: Receipt, rows: map<Uuid, Item>, rid: Uuid)
    requires Inv(t)
    requires r.id !in t.receipts
    requires rows.Keys !! t.items.Keys
    requires forall k :: k in rows ==> rows[k].receiptId == r.id
    ensures rid == r.id ==> ItemsOf(WithReceipt(t, r, rows).items, rid) == rows.Keys
    ensures rid != r.id ==> ItemsOf(WithReceipt(t, r, rows).items, rid) == ItemsOf(t.items, rid)
  {
  }

  /** Deleting a receipt together with its items keeps the invariant: no item is left orphaned. */
  lemma WithoutReceiptKeepsInv(t: Tables, rid: Uuid)
    requires Inv(t)
    ensures Inv(WithoutReceipt(t, rid))
  {
  }

  /** Adding a user under a fresh id with a fresh email keeps the invariant. */
  lemma WithUserKeepsInv(t: Tables, u: User)
    requires Inv(t)
    requires u.id !in t.users
    requires forall k :: k in t.users ==> t.users[k].email != u.email
    ensures Inv(WithUser(t, u))
  {
  }

  /** The database the routes work through: the three tables, updated only by commits. */
  class Session {
    var users: map<Uuid, User>
    var receipts: map<Uuid, Receipt>
    var items: map<Uuid, Item>

    function Snapshot(): Tables
      reads this
    {
      Tables(users, receipts, items)
    }

    predicate Valid()
      reads this
    {
      Inv(Snapshot())
    }

    /** `session.commit()`: the pending rows replace the tables in one step. */
    method Commit(users': map<Uuid, User>, receipts': map<Uuid, Receipt>, items': map<Uuid, Item>)
      requires Inv(Tables(users', receipts', items'))
      modifies this
      ensures Valid()
      ensures Snapshot() == Tables(users', receipts', items')
    {
      users, receipts, items := users', receipts', items';
    }

    constructor ()
      ensures Valid()
      ensures users == map[] && receipts == map[] && items == map[]
    {
      users, receipts, items := map[], map[], map[];
    }
  }
}
