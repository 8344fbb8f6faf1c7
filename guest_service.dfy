/**
 * `GuestService`: the guest directory over the `guests` table, with its
 * name, e-mail and phone validations and e-mail uniqueness.
 */
module GuestServices {
  import opened Wrappers
  import opened Errors
  import opened JavaStrings
  import opened Guests

  /** No two guests share an e-mail address. */
  predicate EmailsUnique(guests: map<int, GuestRow>) {
    forall a, b | a in guests && b in guests && guests[a].email == guests[b].email :: a == b
  }

  /** Some guest other than the one under `key` has e-mail `email`. */
  predicate EmailTakenByOther(guests: map<int, GuestRow>, email: string, key: int) {
    exists k | k in guests :: k != key && guests[k].email == email
  }

  /** `GuestDao.findByEmail`: the row with e-mail `email`, if there is one. */
  function FindByEmail(guests: map<int, GuestRow>, email: string): (r: Option<GuestRow>)
    requires EmailsUnique(guests)
    ensures r.Some? <==> exists k | k in guests :: guests[k].email == email
    ensures r.Some? ==> r.value.email == email && exists k | k in guests :: guests[k] == r.value
  {
    if exists k | k in guests :: guests[k].email == email then
      var k :| k in guests && guests[k].email == email;
      Some(guests[k])
    else None
  }

  /** A null e-mail is invalid; otherwise it must match the pattern (`Guest.validateEmail`). */
  predicate EmailValid(email: Option<string>) {
    email.Some? && MatchesEmailPattern(email.value)
  }

  /** A null phone is invalid; otherwise it must match the pattern (`Guest.validatePhone`). */
  predicate PhoneValid(telefono: Option<string>) {
    telefono.Some? && MatchesPhonePattern(telefono.value)
  }

  /**
   * The validations of `createGuest` before the uniqueness lookup, in the
   * source's order: a null or blank name, a trimmed name shorter than two
   * UTF-16 code units, an invalid e-mail, an invalid phone.
   */
  function CreateGuestCheck(nombre: Option<string>, email: Option<string>, telefono: Option<string>)
    : (o: Outcome<Error>)
    ensures o.Pass? <==> && nombre.Some? && Utf16Length(Trim(nombre.value)) >= 2
                         && EmailValid(email) && PhoneValid(telefono)
    ensures (nombre.None? || Trim(nombre.value) == []) ==> o == Fail(NameRequired)
    ensures nombre.Some? && 0 < Utf16Length(Trim(nombre.value)) < 2 ==> o == Fail(NameTooShort)
    ensures nombre.Some? && Utf16Length(Trim(nombre.value)) >= 2 && !EmailValid(email) ==> o == Fail(InvalidEmail)
    ensures (&& nombre.Some? && Utf16Length(Trim(nombre.value)) >= 2 && EmailValid(email)
             && !PhoneValid(telefono)) ==> o == Fail(InvalidPhone)
  {
    if nombre.None? || Trim(nombre.value) == [] then Fail(NameRequired)
    else if Utf16Length(Trim(nombre.value)) < 2 then Fail(NameTooShort)
    else if !EmailValid(email) then Fail(InvalidEmail)
    else if !PhoneValid(telefono) then Fail(InvalidPhone)
    else Pass
  }

  class GuestService {
    /** The `guests` table, by primary key. */
    var guests: map<int, GuestRow>
    /** The next AUTO_INCREMENT key; keys are never reused. */
    var nextId: int

    /**
     * Every key was handed out by the counter and is the row's own id,
     * e-mails are unique, and every stored e-mail and phone passed the
     * validations (both writers check them).
     */
    ghost predicate Valid()
      reads this
    {
      && nextId > 0
      && (forall k | k in guests :: 0 < k < nextId && guests[k].id == k)
      && EmailsUnique(guests)
      && (forall k | k in guests :: MatchesEmailPattern(guests[k].email) && MatchesPhonePattern(guests[k].telefono))
    }

    constructor ()
      ensures Valid() && guests == map[] && nextId == 1
    {
      guests := map[];
      nextId := 1;
    }

    /**
     * Validates, refuses an e-mail already registered, and otherwise
     * inserts the guest, with its name trimmed, under a fresh key.
     */
    method CreateGuest(nombre: Option<string>, email: Option<string>, telefono: Option<string>)
      returns (r: Result<GuestRow, Error>)
      requires Valid()
      modifies this
      ensures Valid()
      ensures CreateGuestCheck(nombre, email, telefono).Fail? ==>
                r == Failure(CreateGuestCheck(nombre, email, telefono).error)
      ensures (&& CreateGuestCheck(nombre, email, telefono).Pass?
               && EmailTakenByOther(old(guests), email.value, old(nextId))) ==> r == Failure(EmailTaken)
      ensures r.Success? <==> CreateGuestCheck(nombre, email, telefono).Pass? &&
                              !EmailTakenByOther(old(guests), email.value, old(nextId))
      ensures r.Failure? ==> guests == old(guests) && nextId == old(nextId)
      ensures r.Success? ==>
                && r.value == GuestRow(old(nextId), Some(Trim(nombre.value)), email.value, telefono.value)
                && guests == old(guests)[old(nextId) := r.value]
                && nextId == old(nextId) + 1
    {
      if nombre.None? || Trim(nombre.value) == [] {
        return Failure(NameRequired);
      }
      if Utf16Length(Trim(nombre.value)) < 2 {
        return Failure(NameTooShort);
      }
      var guest := new Guest.Create(Some(Trim(nombre.value)), email, telefono);
      if !guest.ValidateEmail() {
        return Failure(InvalidEmail);
      }
      if !guest.ValidatePhone() {
        return Failure(InvalidPhone);
      }
      var existing := FindByEmail(guests, email.value);
      if existing.Some? {
        return Failure(EmailTaken);
      }
      var row := GuestRow(nextId, guest.nombre, guest.email.value, guest.telefono.value);
      guest.SetId(Some(nextId));
      guests := guests[nextId := row];
      nextId := nextId + 1;
      return Success(row);
    }

    /** `findGuestById`: a null or non-positive id is refused; otherwise the row, if any. */
    function FindGuestById(id: Option<int>): (r: Result<Option<GuestRow>, Error>)
      reads this
      ensures r.Failure? <==> id.None? || id.value <= 0
      ensures r.Failure? ==> r.error == GuestIdNotPositive
      ensures r.Success? ==> (r.value.Some? <==> id.value in guests)
      ensures r.Success? && r.value.Some? ==> r.value.value == guests[id.value]
      ensures Valid() && r.Success? && r.value.Some? ==> r.value.value.id == id.value
    {
      if id.None? || id.value <= 0 then Failure(GuestIdNotPositive)
      else if id.value in guests then Success(Some(guests[id.value]))
      else Success(None)
    }

    /** `findGuestByEmail`: a null or blank e-mail is refused; otherwise the guest with it, if any. */
    function FindGuestByEmail(email: Option<string>): (r: Result<Option<GuestRow>, Error>)
      reads this
      requires EmailsUnique(guests)
      ensures r.Failure? <==> email.None? || Trim(email.value) == []
      ensures r.Failure? ==> r.error == EmailRequired
      ensures r.Success? ==> (r.value.Some? <==> exists k | k in guests :: guests[k].email == email.value)
      ensures r.Success? && r.value.Some? ==> r.value.value in guests.Values && r.value.value.email == email.value
    {
      if email.None? || Trim(email.value) == [] then Failure(EmailRequired)
      else Success(FindByEmail(guests, email.value))
    }

    /**
     * `updateGuest`: the guest and its id are required and the id must name
     * a stored row; the e-mail and phone are validated again (the name is
     * not), and the e-mail may be the guest's own but no other guest's.
     */
    method UpdateGuest(guest: Guest?) returns (r: Result<GuestRow, Error>)
      requires Valid()
      modifies this
      ensures Valid() && nextId == old(nextId)
      ensures guest == null || guest.id.None? ==> r == Failure(GuestRequired)
      ensures guest != null && guest.id.Some? && guest.id.value <= 0 ==> r == Failure(GuestIdNotPositive)
      ensures guest != null && guest.id.Some? && guest.id.value > 0 && guest.id.value !in old(guests) ==>
                r == Failure(GuestNotFound)
      ensures (&& guest != null && guest.id.Some? && guest.id.value in old(guests)
               && !EmailValid(guest.email)) ==> r == Failure(InvalidEmail)
      ensures (&& guest != null && guest.id.Some? && guest.id.value in old(guests)
               && EmailValid(guest.email) && !PhoneValid(guest.telefono)) ==> r == Failure(InvalidPhone)
      ensures (&& guest != null && guest.id.Some? && guest.id.value in old(guests)
               && EmailValid(guest.email) && PhoneValid(guest.telefono)
               && EmailTakenByOther(old(guests), guest.email.value, guest.id.value)) ==> r == Failure(EmailTaken)
      ensures r.Success? <==> && guest != null && guest.id.Some? && guest.id.value > 0
                              && guest.id.value in old(guests)
                              && EmailValid(guest.email) && PhoneValid(guest.telefono)
                              && !EmailTakenByOther(old(guests), guest.email.value, guest.id.value)
      ensures r.Failure? ==> guests == old(guests)
      ensures r.Success? ==>
                && r.value == GuestRow(guest.id.value, guest.nombre, guest.email.value, guest.telefono.value)
                && guests == old(guests)[guest.id.value := r.value]
    {
      if guest == null || guest.id.None? {
        return Failure(GuestRequired);
      }
      var existing := FindGuestById(guest.id);
      if existing.Failure? {
        return Failure(existing.error);
      }
      if existing.value.None? {
        return Failure(GuestNotFound);
      }
      if !guest.ValidateEmail() {
        return Failure(InvalidEmail);
      }
      if !guest.ValidatePhone() {
        return Failure(InvalidPhone);
      }
      var key := guest.id.value;
      var sameEmail := FindByEmail(guests, guest.email.value);
      if sameEmail.Some? && sameEmail.value.id != key {
        return Failure(EmailTaken);
      }
      var row := GuestRow(key, guest.nombre, guest.email.value, guest.telefono.value);
      guests := guests[key := row];
      return Success(row);
    }

    /** `deleteGuest`: a non-positive or unknown id is refused; otherwise the row is removed. */
    method DeleteGuest(id: Option<int>) returns (r: Result<bool, Error>)
      requires Valid()
      modifies this
      ensures Valid() && nextId == old(nextId)
      ensures id.None? || id.value <= 0 ==> r == Failure(GuestIdNotPositive)
      ensures id.Some? && id.value > 0 && id.value !in old(guests) ==> r == Failure(GuestNotFound)
      ensures r.Success? <==> id.Some? && id.value > 0 && id.value in old(guests)
      ensures r.Failure? ==> guests == old(guests)
      ensures r.Success? ==> r.value && id.Some? && id.value in old(guests) && guests == old(guests) - {id.value}
    {
      var existing := FindGuestById(id);
      if existing.Failure? {
        return Failure(existing.error);
      }
      if existing.value.None? {
        return Failure(GuestNotFound);
      }
      guests := guests - {id.value};
      return Success(true);
    }
  }

  /** A guest who keeps the e-mail already stored under its own id is never refused for it. */
  lemma OwnEmailNotTaken(guests: map<int, GuestRow>, key: int)
    requires EmailsUnique(guests) && key in guests
    ensures !EmailTakenByOther(guests, guests[key].email, key)
  {
  }
}
