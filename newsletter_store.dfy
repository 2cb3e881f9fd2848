/**
  `saveSubscription` of pages/api/newsletter.ts: data/newsletter.json is read whole,
  scanned for the address (ignoring case), and, when the address is new, written back
  with one more record. Every exception on the way becomes `false`.
 */
module NewsletterStore {
  import opened Wrappers
  import opened Text
  import opened JsonFile

  /**
    One element of data/newsletter.json. The records the endpoint writes always hold a
    string address; a record put there by other means may not, and `email` keeps that
    possibility.
   */
  datatype Subscription = Subscription(id: string, email: Value, subscribedAt: string, status: string)

  const Active := "active"

  /** The outcome of `subscriptions.find(...)`: a match, no match, or a `toLowerCase` call that throws. */
  datatype Scan = Found | NotFound | Throws

  /** `sub.email.toLowerCase()` can be evaluated. */
  predicate Readable(sub: Subscription) {
    sub.email.Text?
  }

  /** The record holds the address whose lower-cased form is `key`. */
  predicate SameAddress(sub: Subscription, key: string) {
    sub.email.Text? && ToLower(sub.email.s) == key
  }

  /**
    `find` scans from the front and stops at the first match or the first record whose
    `email` is not a string. No match means every record was readable and different; a
    match means some record matches; a throw means some record is unreadable. When all
    records are readable, a match is found exactly when one of them holds the address.
   */
  function Find(subs: seq<Subscription>, key: string): (r: Scan)
    ensures r == NotFound <==> forall i :: 0 <= i < |subs| ==> Readable(subs[i]) && !SameAddress(subs[i], key)
    ensures r == Found ==> exists i :: 0 <= i < |subs| && SameAddress(subs[i], key)
    ensures r == Throws ==> exists i :: 0 <= i < |subs| && !Readable(subs[i])
    ensures (forall i :: 0 <= i < |subs| ==> Readable(subs[i])) ==>
      (r == Found <==> exists i :: 0 <= i < |subs| && SameAddress(subs[i], key))
  {
    if subs == [] then NotFound
    else if !Readable(subs[0]) then Throws
    else if SameAddress(subs[0], key) then Found
    else
      var r := Find(subs[1..], key);
      assert forall i :: 1 <= i < |subs| ==> subs[i] == subs[1..][i - 1];
      r
  }

  /** The scan loop of `find`: the same answer as `Find`. */
  method FindSubscription(subs: seq<Subscription>, key: string) returns (r: Scan)
    ensures r == Find(subs, key)
  {
    var i := 0;
    while i < |subs|
      invariant 0 <= i <= |subs|
      invariant Find(subs, key) == Find(subs[i..], key)
    {
      var sub := subs[i];
      if !sub.email.Text? {
        return Throws;
      }
      if ToLower(sub.email.s) == key {
        return Found;
      }
      assert subs[i..][1..] == subs[i + 1..];
      i := i + 1;
    }
    return NotFound;
  }

  /** The record appended for a new address: the address lower-cased, status "active". */
  function NewSubscription(email: string, id: string, at: string): (sub: Subscription)
    ensures sub.id == id && sub.subscribedAt == at && sub.status == Active
    ensures Readable(sub) && SameAddress(sub, ToLower(email))
  {
    ToLowerIdempotent(email);
    Subscription(id, Text(ToLower(email)), at, Active)
  }

  /**
    `saveSubscription({ email })` as a whole-file read-modify-write. It reports success
    when the address is already there (and then writes nothing) or when it appends one
    record and the write goes through; an unreachable directory, an unreadable file, a
    record whose address cannot be lower-cased or a failed write give `false`, and then
    the file is as before.
   */
  function Subscribe(file: FileState<Subscription>, email: string, id: string, at: string, io: StoreIo): (r: Saved<Subscription>)
    ensures r.ok <==>
      && io.dirReady && !file.Corrupt?
      && (Find(Load(file).value, ToLower(email)) == Found
          || (Find(Load(file).value, ToLower(email)) == NotFound && io.writeOk))
    ensures !r.ok ==> r.file == file
    ensures r.file != file ==>
      r.ok && r.file == Stored(Load(file).value + [NewSubscription(email, id, at)])
  {
    if !io.dirReady then Saved(false, file)
    else match Load(file)
      case None => Saved(false, file)
      case Some(subs) =>
        match Find(subs, ToLower(email))
        case Throws => Saved(false, file)
        case Found => Saved(true, file)
        case NotFound =>
          if io.writeOk then Saved(true, Stored(subs + [NewSubscription(email, id, at)]))
          else Saved(false, file)
  }

  /** An address that is already on file, in any casing, is accepted and nothing is written. */
  lemma DuplicateIsNoOp(file: FileState<Subscription>, email: string, id: string, at: string, io: StoreIo)
    requires io.dirReady && file.Stored?
    requires Find(file.records, ToLower(email)) == Found
    ensures Subscribe(file, email, id, at, io) == Saved(true, file)
  {
  }

  /**
    A new address with every record readable and a working write: accepted, and the file
    becomes the old records, in order, followed by exactly one new record.
   */
  lemma NewAddressAppends(file: FileState<Subscription>, email: string, id: string, at: string, io: StoreIo)
    requires io.dirReady && io.writeOk && !file.Corrupt?
    requires forall i :: 0 <= i < |Load(file).value| ==>
      Readable(Load(file).value[i]) && !SameAddress(Load(file).value[i], ToLower(email))
    ensures Subscribe(file, email, id, at, io) == Saved(true, Stored(Load(file).value + [NewSubscription(email, id, at)]))
  {
  }

  /** The record written for an address matches that address in every casing of it. */
  lemma NewSubscriptionMatches(email: string, other: string, id: string, at: string)
    requires ToLower(other) == ToLower(email)
    ensures SameAddress(NewSubscription(email, id, at), ToLower(other))
  {
    ToLowerIdempotent(email);
  }

  /** Appending a record changes the scan only where the old records gave no answer. */
  lemma {:induction false} FindAppend(subs: seq<Subscription>, sub: Subscription, key: string)
    ensures Find(subs + [sub], key) == if Find(subs, key) == NotFound then Find([sub], key) else Find(subs, key)
  {
    if subs != [] {
      assert (subs + [sub])[1..] == subs[1..] + [sub];
      FindAppend(subs[1..], sub, key);
    }
  }

  /** How many records hold the address `key`. */
  function Matches(subs: seq<Subscription>, key: string): (n: nat)
    ensures n <= |subs|
    ensures n == 0 <==> forall i :: 0 <= i < |subs| ==> !SameAddress(subs[i], key)
  {
    if subs == [] then 0
    else
      assert forall i :: 1 <= i < |subs| ==> subs[i] == subs[1..][i - 1];
      (if SameAddress(subs[0], key) then 1 else 0) + Matches(subs[1..], key)
  }

  lemma {:induction false} MatchesAppend(subs: seq<Subscription>, sub: Subscription, key: string)
    ensures Matches(subs + [sub], key) == Matches(subs, key) + (if SameAddress(sub, key) then 1 else 0)
  {
    if subs != [] {
      assert (subs + [sub])[1..] == subs[1..] + [sub];
      MatchesAppend(subs[1..], sub, key);
    }
  }

  /**
    Subscribing twice, the second time in any casing of the same address: when the first
    call adds the address, the file then holds exactly one record for it, and the second
    call (its directory reachable) succeeds without changing the file, whether or not its
    own write would have worked.
   */
  lemma SubscribeTwice(file: FileState<Subscription>, email: string, again: string,
                       id: string, at: string, io: StoreIo, id2: string, at2: string, io2: StoreIo)
    requires ToLower(again) == ToLower(email)
    requires io.dirReady && io.writeOk && !file.Corrupt?
    requires Find(Load(file).value, ToLower(email)) == NotFound
    requires io2.dirReady
    ensures var first := Subscribe(file, email, id, at, io);
      first.ok && first.file.Stored? && Matches(first.file.records, ToLower(email)) == 1
      && Subscribe(first.file, again, id2, at2, io2) == Saved(true, first.file)
  {
    var subs := Load(file).value;
    var sub := NewSubscription(email, id, at);
    NewSubscriptionMatches(email, email, id, at);
    NewSubscriptionMatches(email, again, id, at);
    MatchesAppend(subs, sub, ToLower(email));
    FindAppend(subs, sub, ToLower(again));
    assert Find([sub], ToLower(again)) == Found;
  }

  /** data/newsletter.json. */
  class SubscriptionStore {
    var file: FileState<Subscription>

    constructor (file: FileState<Subscription>)
      ensures this.file == file
    {
      this.file := file;
    }

    /** `saveSubscription(data)`: read, scan, push and write back, or report failure. */
    method SaveSubscription(email: string, id: string, at: string, io: StoreIo) returns (ok: bool)
      modifies this
      ensures Saved(ok, file) == Subscribe(old(file), email, id, at, io)
    {
      if !io.dirReady {
        return false;
      }
      var subscriptions: seq<Subscription> := [];
      match file {
        case Corrupt =>
          return false;
        case Stored(records) =>
          subscriptions := records;
        case Missing =>
      }
      var existing := FindSubscription(subscriptions, ToLower(email));
      if existing == Throws {
        return false;
      }
      if existing == Found {
        return true;
      }
      subscriptions := subscriptions + [Subscription(id, Text(ToLower(email)), at, Active)];
      if !io.writeOk {
        return false;
      }
      file := Stored(subscriptions);
      return true;
    }
  }
}
