/** The `Guest` entity, its row in the `guests` table, and its e-mail and phone formats. */
module Guests {
  import opened Wrappers

  /** A row of the `guests` table as the services write it (the name may be null after an update). */
  datatype GuestRow = GuestRow(id: int, nombre: Option<string>, email: string, telefono: string)

  predicate AsciiLetter(c: char) {
    'A' <= c <= 'Z' || 'a' <= c <= 'z'
  }

  predicate AsciiDigit(c: char) {
    '0' <= c <= '9'
  }

  /** `[A-Za-z0-9+_.-]`, the characters of the part before the '@'. */
  predicate LocalChar(c: char) {
    AsciiLetter(c) || AsciiDigit(c) || c == '+' || c == '_' || c == '.' || c == '-'
  }

  /** `[A-Za-z0-9.-]`, the characters of the domain. */
  predicate DomainChar(c: char) {
    AsciiLetter(c) || AsciiDigit(c) || c == '.' || c == '-'
  }

  /**
   * `s` read as `local '@' host '.' tld` with the '@' at `at` and the '.' at
   * `dot`: `local` is one or more LocalChar, `host` one or more DomainChar
   * and `tld` two or more ASCII letters.
   */
  predicate EmailSplit(s: string, at: int, dot: int) {
    && 1 <= at && at + 1 < dot && dot + 2 < |s|
    && s[at] == '@' && s[dot] == '.'
    && (forall i | 0 <= i < at :: LocalChar(s[i]))
    && (forall i | at < i < dot :: DomainChar(s[i]))
    && (forall i | dot < i < |s| :: AsciiLetter(s[i]))
  }

  /** The whole of `s` matches `^[A-Za-z0-9+_.-]+@([A-Za-z0-9.-]+\.[A-Za-z]{2,})$`. */
  predicate MatchesEmailPattern(s: string) {
    exists at, dot | 0 <= at < dot < |s| :: EmailSplit(s, at, dot)
  }

  /** The whole of `s` matches `^\+?[0-9]{9,15}$`. */
  predicate MatchesPhonePattern(s: string) {
    || (9 <= |s| <= 15 && forall i | 0 <= i < |s| :: AsciiDigit(s[i]))
    || (|s| >= 1 && s[0] == '+' && 10 <= |s| <= 16 && forall i | 1 <= i < |s| :: AsciiDigit(s[i]))
  }

  /** The first position of `c` in `s`. */
  function IndexOf(s: string, c: char): (r: Option<nat>)
    ensures r.Some? ==> r.value < |s| && s[r.value] == c
    ensures r.Some? ==> forall j | 0 <= j < r.value :: s[j] != c
    ensures r.None? ==> forall j | 0 <= j < |s| :: s[j] != c
  {
    if |s| == 0 then None
    else if s[0] == c then Some(0)
    else match IndexOf(s[1..], c)
      case None => None
      case Some(i) => Some(i + 1)
  }

  /** The last position of `c` in `s`. */
  function LastIndexOf(s: string, c: char): (r: Option<nat>)
    ensures r.Some? ==> r.value < |s| && s[r.value] == c
    ensures r.Some? ==> forall j | r.value < j < |s| :: s[j] != c
    ensures r.None? ==> forall j | 0 <= j < |s| :: s[j] != c
  {
    if |s| == 0 then None
    else if s[|s| - 1] == c then Some(|s| - 1)
    else LastIndexOf(s[..|s| - 1], c)
  }

  /**
   * An e-mail matches the pattern exactly when it has one '@', and cutting
   * it at that '@' and at its LAST '.' gives a non-empty local part, a
   * non-empty domain text before the '.' and at least two letters after it.
   */
  lemma {:induction false} EmailPatternCharacterization(s: string)
    ensures MatchesEmailPattern(s) <==>
              && IndexOf(s, '@').Some? && LastIndexOf(s, '.').Some?
              && (forall i | 0 <= i < |s| && s[i] == '@' :: i == IndexOf(s, '@').value)
              && EmailSplit(s, IndexOf(s, '@').value, LastIndexOf(s, '.').value)
  {
    if MatchesEmailPattern(s) {
      var at, dot :| 0 <= at < dot < |s| && EmailSplit(s, at, dot);
      assert !LocalChar('@') && !DomainChar('@') && !AsciiLetter('@') && !AsciiLetter('.');
      assert forall j | 0 <= j < at :: s[j] != '@' by {
        forall j | 0 <= j < at ensures s[j] != '@' { assert LocalChar(s[j]); }
      }
      assert IndexOf(s, '@') == Some(at);
      assert forall j | dot < j < |s| :: s[j] != '.' by {
        forall j | dot < j < |s| ensures s[j] != '.' { assert AsciiLetter(s[j]); }
      }
      assert LastIndexOf(s, '.') == Some(dot);
      assert forall j | at < j < |s| :: s[j] != '@' by {
        forall j | at < j < |s| ensures s[j] != '@' {
          if j < dot { assert DomainChar(s[j]); } else if j > dot { assert AsciiLetter(s[j]); }
        }
      }
    }
  }

  /** Spaces, dashes, letters, and a '+' anywhere but first, all make a phone invalid. */
  lemma PhoneRejectsSeparators(s: string, i: int)
    requires 0 <= i < |s|
    requires s[i] == ' ' || s[i] == '-' || AsciiLetter(s[i]) || (s[i] == '+' && i > 0)
    ensures !MatchesPhonePattern(s)
  {
    assert !AsciiDigit(s[i]);
  }

  /** A guest as the services handle it; the registration timestamp is not modelled. */
  class Guest {
    var id: Option<int>
    var nombre: Option<string>
    var email: Option<string>
    var telefono: Option<string>

    constructor ()
      ensures id == None && nombre == None && email == None && telefono == None
    {
      id, nombre, email, telefono := None, None, None, None;
    }

    /** Stores the three values verbatim, null or not. */
    constructor Create(nombre: Option<string>, email: Option<string>, telefono: Option<string>)
      ensures id == None
      ensures this.nombre == nombre && this.email == email && this.telefono == telefono
    {
      id := None;
      this.nombre, this.email, this.telefono := nombre, email, telefono;
    }

    /** A guest read back from its row (`mapResultSetToGuest`). */
    constructor FromRow(row: GuestRow)
      ensures id == Some(row.id) && nombre == row.nombre
      ensures email == Some(row.email) && telefono == Some(row.telefono)
    {
      id := Some(row.id);
      nombre, email, telefono := row.nombre, Some(row.email), Some(row.telefono);
    }

    /** A null e-mail is invalid; otherwise the whole address must match the pattern. */
    predicate ValidateEmail()
      reads this
      ensures email.None? ==> !ValidateEmail()
      ensures ValidateEmail() <==>
                && email.Some?
                && IndexOf(email.value, '@').Some? && LastIndexOf(email.value, '.').Some?
                && (forall i | 0 <= i < |email.value| && email.value[i] == '@' :: i == IndexOf(email.value, '@').value)
                && EmailSplit(email.value, IndexOf(email.value, '@').value, LastIndexOf(email.value, '.').value)
    {
      if email.None? then false
      else
        EmailPatternCharacterization(email.value);
        MatchesEmailPattern(email.value)
    }

    /** A null phone is invalid; otherwise it is an optional '+' and 9 to 15 digits. */
    predicate ValidatePhone()
      reads this
      ensures ValidatePhone() <==>
                telefono.Some? &&
                var digits := if |telefono.value| > 0 && telefono.value[0] == '+'
                              then telefono.value[1..] else telefono.value;
                9 <= |digits| <= 15 && forall i | 0 <= i < |digits| :: AsciiDigit(digits[i])
    {
      telefono.Some? && MatchesPhonePattern(telefono.value)
    }

    /** `String.format("%s - %s - %s", nombre, email, telefono)`; a null prints as "null". */
    function GetContactInfo(): (info: string)
      reads this
      ensures |info| == |Show(nombre)| + |Show(email)| + |Show(telefono)| + 6
      ensures info[..|Show(nombre)|] == Show(nombre)
      ensures info[|Show(nombre)|..|Show(nombre)| + 3] == " - "
      ensures info[|Show(nombre)| + 3..|Show(nombre)| + 3 + |Show(email)|] == Show(email)
      ensures info[|Show(nombre)| + 3 + |Show(email)|..|Show(nombre)| + 6 + |Show(email)|] == " - "
      ensures info[|info| - |Show(telefono)|..] == Show(telefono)
    {
      Show(nombre) + " - " + Show(email) + " - " + Show(telefono)
    }

    method SetId(id: Option<int>)
      modifies this`id
      ensures this.id == id
    {
      this.id := id;
    }

    method SetNombre(nombre: Option<string>)
      modifies this`nombre
      ensures this.nombre == nombre
    {
      this.nombre := nombre;
    }

    method SetEmail(email: Option<string>)
      modifies this`email
      ensures this.email == email
    {
      this.email := email;
    }

    method SetTelefono(telefono: Option<string>)
      modifies this`telefono
      ensures this.telefono == telefono
    {
      this.telefono := telefono;
    }
  }

  /** How `%s` prints a string reference. */
  function Show(s: Option<string>): string {
    if s.Some? then s.value else "null"
  }
}
