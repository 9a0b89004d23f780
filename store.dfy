/** The database the request handlers share: the tables as one value that handlers
    reassign, and the next value of each auto-increment key sequence the core inserts into. */
module Database {
  import opened Common
  import opened Models

  class Store {
    var db: Db
    var nextBookingId: Id
    var nextUserId: Id

    /** The integrity the database enforces, and key sequences ahead of every stored key. */
    predicate Valid()
      reads this
    {
      && Integrity(db)
      && (forall b :: b in db.bookings ==> b.id < nextBookingId)
      && (forall u :: u in db.users ==> u.id < nextUserId)
    }

    constructor (initial: Db, bookingSeq: Id, userSeq: Id)
      requires Integrity(initial)
      requires forall b :: b in initial.bookings ==> b.id < bookingSeq
      requires forall u :: u in initial.users ==> u.id < userSeq
      ensures Valid()
      ensures db == initial && nextBookingId == bookingSeq && nextUserId == userSeq
    {
      db := initial;
      nextBookingId := bookingSeq;
      nextUserId := userSeq;
    }
  }
}
