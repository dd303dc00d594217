/** The Piece record and its schema (src/models/Piece.ts): the nine data fields, the
    calendar dates they use, and the validators the schema declares, with the message each
    validator reports. */
module Models {
  import opened Common

  // ---------------------------------------------------------------------------------
  // Calendar dates, at day granularity
  // ---------------------------------------------------------------------------------

  datatype CalendarDate = CalendarDate(year: int, month: int, day: int)

  predicate IsLeapYear(y: int) {
    (y % 4 == 0 && y % 100 != 0) || y % 400 == 0
  }

  function DaysInMonth(year: int, month: int): (n: int)
    ensures 28 <= n <= 31
  {
    if month == 2 then (if IsLeapYear(year) then 29 else 28)
    else if month == 4 || month == 6 || month == 9 || month == 11 then 30
    else 31
  }

  predicate WellFormed(d: CalendarDate) {
    1 <= d.month <= 12 && 1 <= d.day <= DaysInMonth(d.year, d.month)
  }

  /** A day of the calendar. */
  type Date = d: CalendarDate | WellFormed(d) witness CalendarDate(1970, 1, 1)

  /** `a <= b` on dates: chronological order. */
  predicate DateLe(a: CalendarDate, b: CalendarDate) {
    a.year < b.year
    || (a.year == b.year && a.month < b.month)
    || (a.year == b.year && a.month == b.month && a.day <= b.day)
  }

  lemma DateLeIsTotalOrder(a: CalendarDate, b: CalendarDate, c: CalendarDate)
    ensures DateLe(a, a)
    ensures DateLe(a, b) && DateLe(b, a) ==> a == b
    ensures DateLe(a, b) && DateLe(b, c) ==> DateLe(a, c)
    ensures DateLe(a, b) || DateLe(b, a)
  {
  }

  /** January 1st of year `y`. */
  function YearStart(y: int): (d: Date)
    ensures d.year == y && forall x: Date :: x.year == y ==> DateLe(d, x)
  {
    CalendarDate(y, 1, 1)
  }

  /** December 31st of year `y`. */
  function YearEnd(y: int): (d: Date)
    ensures d.year == y && forall x: Date :: x.year == y ==> DateLe(x, d)
  {
    CalendarDate(y, 12, 31)
  }

  /** The year range is inclusive at both ends and exactly selects the years from `start`
      to `end`: a date lies between January 1st of `start` and December 31st of `end`
      iff its year lies between `start` and `end`. */
  lemma BetweenYearBoundsIff(d: Date, start: int, end: int)
    ensures (DateLe(YearStart(start), d) && DateLe(d, YearEnd(end))) <==> start <= d.year <= end
  {
  }

  // ---------------------------------------------------------------------------------
  // Records
  // ---------------------------------------------------------------------------------

  /** The nine data fields of a stored piece. */
  datatype Piece = Piece(
    pieceName: string,
    compositorName: string,
    durationMinutes: int,
    dateOfRelease: Date,
    compositorIsAlive: bool,
    instruments: seq<string>,
    difficultyLevel: int,
    styles: seq<string>,
    compositorImageUrl: string)

  /** A piece as a client sends it: the identifier and every data field may be missing. */
  datatype RawPiece = RawPiece(
    id: Option<Id>,
    pieceName: Option<string>,
    compositorName: Option<string>,
    durationMinutes: Option<int>,
    dateOfRelease: Option<Date>,
    compositorIsAlive: Option<bool>,
    instruments: Option<seq<string>>,
    difficultyLevel: Option<int>,
    styles: Option<seq<string>>,
    compositorImageUrl: Option<string>)

  predicate Complete(raw: RawPiece) {
    && raw.pieceName.Some? && raw.compositorName.Some? && raw.durationMinutes.Some?
    && raw.dateOfRelease.Some? && raw.compositorIsAlive.Some? && raw.instruments.Some?
    && raw.difficultyLevel.Some? && raw.styles.Some? && raw.compositorImageUrl.Some?
  }

  /** The stored piece made of a complete raw piece's fields. */
  function ToPiece(raw: RawPiece): Piece
    requires Complete(raw)
  {
    Piece(raw.pieceName.value, raw.compositorName.value, raw.durationMinutes.value,
          raw.dateOfRelease.value, raw.compositorIsAlive.value, raw.instruments.value,
          raw.difficultyLevel.value, raw.styles.value, raw.compositorImageUrl.value)
  }

  /** The document view of a stored piece, under identifier `id`. */
  function AsRaw(id: Option<Id>, p: Piece): (raw: RawPiece)
    ensures Complete(raw) && raw.id == id && ToPiece(raw) == p
  {
    RawPiece(id, Some(p.pieceName), Some(p.compositorName), Some(p.durationMinutes),
             Some(p.dateOfRelease), Some(p.compositorIsAlive), Some(p.instruments),
             Some(p.difficultyLevel), Some(p.styles), Some(p.compositorImageUrl))
  }

  // ---------------------------------------------------------------------------------
  // Schema constants and messages
  // ---------------------------------------------------------------------------------

  const MAX_NAME_LENGTH: nat := 100
  const MAX_INSTRUMENT_LENGTH: nat := 100
  const MAX_STYLE_LENGTH: nat := 50
  const MAX_URL_LENGTH: nat := 200
  const MIN_DURATION: int := 0
  const MIN_DIFFICULTY: int := 1
  const MAX_DIFFICULTY: int := 6

  const PIECE_NAME_REQUIRED := "Le nom de la pièce est requis"
  const PIECE_NAME_TOO_LONG := "La longueur du nom de la pièce ne doit pas dépasser 100 caractères"
  const COMPOSITOR_NAME_REQUIRED := "Le nom du compositeur est requis"
  const COMPOSITOR_NAME_TOO_LONG := "La longueur du nom du compositeur ne doit pas dépasser 100 caractères"
  const DURATION_REQUIRED := "La durée est requise"
  const DURATION_NEGATIVE := "La durée doit être positive"
  const DATE_REQUIRED := "La date de sortie est requise"
  const DATE_IN_FUTURE := "La date de sortie ne peut pas être dans le futur"
  const ALIVE_REQUIRED := "Le statut du compositeur est requis"
  const INSTRUMENTS_REQUIRED := "Les instruments sont requis"
  const INSTRUMENT_TOO_LONG := "Chaque instrument ne doit pas dépasser 100 caractères"
  const INSTRUMENTS_DUPLICATED := "Les instruments ne doivent pas être en double"
  const DIFFICULTY_REQUIRED := "Le niveau de difficulté est requis"
  const DIFFICULTY_TOO_LOW := "La difficulté minimale est 1"
  const DIFFICULTY_TOO_HIGH := "La difficulté maximale est 6"
  const STYLES_REQUIRED := "Les styles sont requis"
  const STYLE_TOO_LONG := "Chaque style ne doit pas dépasser 50 caractères"
  const STYLES_DUPLICATED := "Les styles ne doivent pas être en double"
  const URL_REQUIRED := "L'url de la photo du compositeur est requise."
  const URL_TOO_LONG := "La longueur de l'url de la photo du compositeure ne doit pas dépasser 200 caractères"

  // ---------------------------------------------------------------------------------
  // Duplicate-free lists
  // ---------------------------------------------------------------------------------

  /** `new Set(arr)`: the strings the list holds, each once; so never more than the list's
      length. */
  function ElementSet(s: seq<string>): (r: set<string>)
    ensures forall x :: x in r <==> x in s
    ensures |r| <= |s|
  {
    if s == [] then {} else {s[0]} + ElementSet(s[1..])
  }

  /** No two positions of `s` hold the same string. */
  predicate NoDuplicates(s: seq<string>) {
    forall i, j :: 0 <= i < j < |s| ==> s[i] != s[j]
  }

  /** The schema's duplicate test `new Set(arr).size === arr.length` holds exactly of the
      duplicate-free lists. */
  lemma {:induction false} SetSizeIsLengthIffNoDuplicates(s: seq<string>)
    ensures |ElementSet(s)| == |s| <==> NoDuplicates(s)
  {
    if s != [] {
      var t := s[1..];
      SetSizeIsLengthIffNoDuplicates(t);
      if s[0] in t {
        var k :| 0 <= k < |t| && t[k] == s[0];
        assert s[0] == s[k + 1];
        assert ElementSet(s) == ElementSet(t);
      } else {
        assert s[0] !in ElementSet(t);
        assert |ElementSet(s)| == 1 + |ElementSet(t)|;
        if NoDuplicates(t) {
          forall i, j | 0 <= i < j < |s| ensures s[i] != s[j] {
            if i > 0 {
              assert s[i] == t[i - 1] && s[j] == t[j - 1];
            } else {
              assert s[j] == t[j - 1];
            }
          }
        }
        if NoDuplicates(s) {
          forall i, j | 0 <= i < j < |t| ensures t[i] != t[j] {
            assert t[i] == s[i + 1] && t[j] == s[j + 1];
          }
        }
      }
    }
  }

  // ---------------------------------------------------------------------------------
  // Validators
  // ---------------------------------------------------------------------------------

  /** The `required` rule of a string path: present and not the empty string. */
  predicate StringPresent(v: Option<string>) {
    v.Some? && v.value != ""
  }

  predicate AllAtMost(s: seq<string>, maxLen: nat) {
    forall i :: 0 <= i < |s| ==> |s[i]| <= maxLen
  }

  function CheckString(v: Option<string>, maxLen: nat, requiredMsg: string, tooLongMsg: string): Option<string> {
    if !StringPresent(v) then Some(requiredMsg)
    else if |v.value| > maxLen then Some(tooLongMsg)
    else None
  }

  function CheckList(v: Option<seq<string>>, maxLen: nat, requiredMsg: string, tooLongMsg: string,
                     duplicateMsg: string): Option<string> {
    if v.None? then Some(requiredMsg)
    else if !AllAtMost(v.value, maxLen) then Some(tooLongMsg)
    else if |ElementSet(v.value)| != |v.value| then Some(duplicateMsg)
    else None
  }

  /** The `required` rule of path `f` fails: the value is missing, or is the empty string
      on a string path. */
  predicate Missing(raw: RawPiece, f: Field) {
    match f
    case PieceName => !StringPresent(raw.pieceName)
    case CompositorName => !StringPresent(raw.compositorName)
    case DurationMinutes => raw.durationMinutes.None?
    case DateOfRelease => raw.dateOfRelease.None?
    case CompositorIsAlive => raw.compositorIsAlive.None?
    case Instruments => raw.instruments.None?
    case DifficultyLevel => raw.difficultyLevel.None?
    case Styles => raw.styles.None?
    case CompositorImageUrl => !StringPresent(raw.compositorImageUrl)
  }

  /** The message of path `f`'s `required` rule. */
  function RequiredMessage(f: Field): string {
    match f
    case PieceName => PIECE_NAME_REQUIRED
    case CompositorName => COMPOSITOR_NAME_REQUIRED
    case DurationMinutes => DURATION_REQUIRED
    case DateOfRelease => DATE_REQUIRED
    case CompositorIsAlive => ALIVE_REQUIRED
    case Instruments => INSTRUMENTS_REQUIRED
    case DifficultyLevel => DIFFICULTY_REQUIRED
    case Styles => STYLES_REQUIRED
    case CompositorImageUrl => URL_REQUIRED
  }

  /** The constraint on each path, stated directly. */
  predicate FieldOk(raw: RawPiece, f: Field, now: Date) {
    match f
    case PieceName => StringPresent(raw.pieceName) && |raw.pieceName.value| <= 100
    case CompositorName => StringPresent(raw.compositorName) && |raw.compositorName.value| <= 100
    case DurationMinutes => raw.durationMinutes.Some? && raw.durationMinutes.value >= 0
    case DateOfRelease => raw.dateOfRelease.Some? && DateLe(raw.dateOfRelease.value, now)
    case CompositorIsAlive => raw.compositorIsAlive.Some?
    case Instruments =>
      raw.instruments.Some? && AllAtMost(raw.instruments.value, 100) && NoDuplicates(raw.instruments.value)
    case DifficultyLevel => raw.difficultyLevel.Some? && 1 <= raw.difficultyLevel.value <= 6
    case Styles => raw.styles.Some? && AllAtMost(raw.styles.value, 50) && NoDuplicates(raw.styles.value)
    case CompositorImageUrl => StringPresent(raw.compositorImageUrl) && |raw.compositorImageUrl.value| <= 200
  }

  /** The error the schema reports for one path: the message of the first of its validators
      that fails (`required` first, then the others in the order they are declared), or
      None when all pass. All pass exactly when the path's constraint holds, and the
      `required` message is reported exactly when the value is missing. */
  function FieldCheck(raw: RawPiece, f: Field, now: Date): (r: Option<string>)
    ensures r.None? <==> FieldOk(raw, f, now)
    ensures r == Some(RequiredMessage(f)) <==> Missing(raw, f)
    // Each later rule, when the rules before it pass, reports its own message.
    ensures f == PieceName && StringPresent(raw.pieceName) && |raw.pieceName.value| > 100 ==>
              r == Some(PIECE_NAME_TOO_LONG)
    ensures f == CompositorName && StringPresent(raw.compositorName) && |raw.compositorName.value| > 100 ==>
              r == Some(COMPOSITOR_NAME_TOO_LONG)
    ensures f == DurationMinutes && raw.durationMinutes.Some? && raw.durationMinutes.value < 0 ==>
              r == Some(DURATION_NEGATIVE)
    ensures f == DateOfRelease && raw.dateOfRelease.Some? && !DateLe(raw.dateOfRelease.value, now) ==>
              r == Some(DATE_IN_FUTURE)
    ensures f == Instruments && raw.instruments.Some? && !AllAtMost(raw.instruments.value, 100) ==>
              r == Some(INSTRUMENT_TOO_LONG)
    ensures (f == Instruments && raw.instruments.Some? && AllAtMost(raw.instruments.value, 100)
             && !NoDuplicates(raw.instruments.value)) ==> r == Some(INSTRUMENTS_DUPLICATED)
    ensures f == DifficultyLevel && raw.difficultyLevel.Some? && raw.difficultyLevel.value < 1 ==>
              r == Some(DIFFICULTY_TOO_LOW)
    ensures f == DifficultyLevel && raw.difficultyLevel.Some? && raw.difficultyLevel.value > 6 ==>
              r == Some(DIFFICULTY_TOO_HIGH)
    ensures f == Styles && raw.styles.Some? && !AllAtMost(raw.styles.value, 50) ==>
              r == Some(STYLE_TOO_LONG)
    ensures (f == Styles && raw.styles.Some? && AllAtMost(raw.styles.value, 50)
             && !NoDuplicates(raw.styles.value)) ==> r == Some(STYLES_DUPLICATED)
    ensures f == CompositorImageUrl && StringPresent(raw.compositorImageUrl) && |raw.compositorImageUrl.value| > 200 ==>
              r == Some(URL_TOO_LONG)
  {
    match f
    case PieceName =>
      CheckString(raw.pieceName, MAX_NAME_LENGTH, PIECE_NAME_REQUIRED, PIECE_NAME_TOO_LONG)
    case CompositorName =>
      CheckString(raw.compositorName, MAX_NAME_LENGTH, COMPOSITOR_NAME_REQUIRED, COMPOSITOR_NAME_TOO_LONG)
    case DurationMinutes =>
      if raw.durationMinutes.None? then Some(DURATION_REQUIRED)
      else if raw.durationMinutes.value < MIN_DURATION then Some(DURATION_NEGATIVE)
      else None
    case DateOfRelease =>
      if raw.dateOfRelease.None? then Some(DATE_REQUIRED)
      else if !DateLe(raw.dateOfRelease.value, now) then Some(DATE_IN_FUTURE)
      else None
    case CompositorIsAlive =>
      if raw.compositorIsAlive.None? then Some(ALIVE_REQUIRED) else None
    case Instruments =>
      SetSizeIsLengthIffNoDuplicates(if raw.instruments.Some? then raw.instruments.value else []);
      CheckList(raw.instruments, MAX_INSTRUMENT_LENGTH, INSTRUMENTS_REQUIRED, INSTRUMENT_TOO_LONG,
                INSTRUMENTS_DUPLICATED)
    case DifficultyLevel =>
      if raw.difficultyLevel.None? then Some(DIFFICULTY_REQUIRED)
      else if raw.difficultyLevel.value < MIN_DIFFICULTY then Some(DIFFICULTY_TOO_LOW)
      else if raw.difficultyLevel.value > MAX_DIFFICULTY then Some(DIFFICULTY_TOO_HIGH)
      else None
    case Styles =>
      SetSizeIsLengthIffNoDuplicates(if raw.styles.Some? then raw.styles.value else []);
      CheckList(raw.styles, MAX_STYLE_LENGTH, STYLES_REQUIRED, STYLE_TOO_LONG, STYLES_DUPLICATED)
    case CompositorImageUrl =>
      CheckString(raw.compositorImageUrl, MAX_URL_LENGTH, URL_REQUIRED, URL_TOO_LONG)
  }

  /** The paths in the order the schema declares them. */
  const SchemaOrder: seq<Field> := [PieceName, CompositorName, DurationMinutes, DateOfRelease,
                                    CompositorIsAlive, Instruments, DifficultyLevel, Styles,
                                    CompositorImageUrl]

  /** The schema declares every path, and each once. */
  lemma SchemaOrderListsEachFieldOnce()
    ensures forall f: Field :: f in SchemaOrder
    ensures forall a, b :: 0 <= a < b < |SchemaOrder| ==> SchemaOrder[a] != SchemaOrder[b]
  {
    forall f: Field ensures f in SchemaOrder {
      match f
      case PieceName => assert SchemaOrder[0] == f;
      case CompositorName => assert SchemaOrder[1] == f;
      case DurationMinutes => assert SchemaOrder[2] == f;
      case DateOfRelease => assert SchemaOrder[3] == f;
      case CompositorIsAlive => assert SchemaOrder[4] == f;
      case Instruments => assert SchemaOrder[5] == f;
      case DifficultyLevel => assert SchemaOrder[6] == f;
      case Styles => assert SchemaOrder[7] == f;
      case CompositorImageUrl => assert SchemaOrder[8] == f;
    }
  }

  /** The errors of the paths `fs`, one per failing path, in the order of `fs`: at most one
      per path when `fs` lists each path once. */
  function CollectErrors(raw: RawPiece, now: Date, fs: seq<Field>): (es: seq<FieldError>)
    ensures |es| <= |fs|
    ensures forall i :: 0 <= i < |es| ==> es[i].field in fs && FieldCheck(raw, es[i].field, now) == Some(es[i].message)
    ensures forall f :: f in fs && FieldCheck(raw, f, now).Some? ==> FieldError(f, FieldCheck(raw, f, now).value) in es
    ensures (forall a, b :: 0 <= a < b < |fs| ==> fs[a] != fs[b]) ==>
              forall a, b :: 0 <= a < b < |es| ==> es[a].field != es[b].field
  {
    if fs == [] then []
    else
      var rest := CollectErrors(raw, now, fs[1..]);
      match FieldCheck(raw, fs[0], now)
      case Some(m) => [FieldError(fs[0], m)] + rest
      case None => rest
  }

  /** `validateSync()` of a document: exactly one error per path that fails validation,
      carrying that path's first failing message, and no two errors for the same path. */
  function SchemaErrors(raw: RawPiece, now: Date): (es: seq<FieldError>)
    ensures |es| <= |SchemaOrder|
    ensures forall i :: 0 <= i < |es| ==> FieldCheck(raw, es[i].field, now) == Some(es[i].message)
    ensures forall f: Field :: FieldCheck(raw, f, now).Some? ==> FieldError(f, FieldCheck(raw, f, now).value) in es
    ensures forall a, b :: 0 <= a < b < |es| ==> es[a].field != es[b].field
  {
    SchemaOrderListsEachFieldOnce();
    CollectErrors(raw, now, SchemaOrder)
  }

  /** Every schema constraint holds of `raw` at time `now`; the `required` rules make such a
      piece complete. */
  predicate Conforms(raw: RawPiece, now: Date)
    ensures Conforms(raw, now) ==> Complete(raw)
  {
    && FieldOk(raw, PieceName, now) && FieldOk(raw, CompositorName, now)
    && FieldOk(raw, DurationMinutes, now) && FieldOk(raw, DateOfRelease, now)
    && FieldOk(raw, CompositorIsAlive, now) && FieldOk(raw, Instruments, now)
    && FieldOk(raw, DifficultyLevel, now) && FieldOk(raw, Styles, now)
    && FieldOk(raw, CompositorImageUrl, now)
  }

  /** The schema reports a message for path `f` iff the constraint on `f` fails, and the
      message it reports is that path's own. */
  lemma {:induction false} SchemaErrorsPerField(raw: RawPiece, now: Date, f: Field, m: string)
    ensures FieldError(f, m) in SchemaErrors(raw, now) <==> FieldCheck(raw, f, now) == Some(m)
    ensures (exists e :: e in SchemaErrors(raw, now) && e.field == f) <==> !FieldOk(raw, f, now)
  {
  }

  /** A piece breaking the constraint of any one path does not conform. */
  lemma BrokenFieldBreaksConformance(raw: RawPiece, now: Date, f: Field)
    requires !FieldOk(raw, f, now)
    ensures !Conforms(raw, now)
  {
  }

  /** The first path, in schema order, whose constraint a non-conforming piece breaks. */
  function FirstBrokenField(raw: RawPiece, now: Date): (f: Field)
    requires !Conforms(raw, now)
    ensures !FieldOk(raw, f, now)
    ensures forall i :: 0 <= i < |SchemaOrder| && SchemaOrder[i] == f ==>
              forall j :: 0 <= j < i ==> FieldOk(raw, SchemaOrder[j], now)
  {
    if !FieldOk(raw, PieceName, now) then PieceName
    else if !FieldOk(raw, CompositorName, now) then CompositorName
    else if !FieldOk(raw, DurationMinutes, now) then DurationMinutes
    else if !FieldOk(raw, DateOfRelease, now) then DateOfRelease
    else if !FieldOk(raw, CompositorIsAlive, now) then CompositorIsAlive
    else if !FieldOk(raw, Instruments, now) then Instruments
    else if !FieldOk(raw, DifficultyLevel, now) then DifficultyLevel
    else if !FieldOk(raw, Styles, now) then Styles
    else CompositorImageUrl
  }

  /** A piece is valid iff the schema reports no error. */
  lemma {:induction false} NoErrorsIffConforms(raw: RawPiece, now: Date)
    ensures SchemaErrors(raw, now) == [] <==> Conforms(raw, now)
  {
    var es := SchemaErrors(raw, now);
    if es != [] {
      BrokenFieldBreaksConformance(raw, now, es[0].field);
    }
    if !Conforms(raw, now) {
      var f := FirstBrokenField(raw, now);
      assert FieldError(f, FieldCheck(raw, f, now).value) in es;
    }
  }

  /** `new Piece(piece)`: the document the ODM builds from a client's piece. A missing array
      path receives the array type's default, the empty array; every other path keeps the
      client's value. */
  function NewDocument(raw: RawPiece): (doc: RawPiece)
    ensures doc.instruments.Some? && doc.styles.Some?
    ensures raw.instruments.Some? ==> doc.instruments == raw.instruments
    ensures raw.styles.Some? ==> doc.styles == raw.styles
    ensures doc.(instruments := raw.instruments, styles := raw.styles) == raw
  {
    raw.(instruments := if raw.instruments.None? then Some([]) else raw.instruments,
         styles := if raw.styles.None? then Some([]) else raw.styles)
  }

  /** The defaults can only help: a missing array never fails `required` once the document
      is built, and a piece that conformed still does. */
  lemma NewDocumentDefaults(raw: RawPiece, now: Date)
    ensures !Missing(NewDocument(raw), Instruments) && !Missing(NewDocument(raw), Styles)
    ensures raw.instruments.None? ==> FieldOk(NewDocument(raw), Instruments, now)
    ensures raw.styles.None? ==> FieldOk(NewDocument(raw), Styles, now)
    ensures Conforms(raw, now) ==> Conforms(NewDocument(raw), now)
  {
  }

  /** Conformance only gets easier with time: the one time-dependent rule is "not after now". */
  lemma ConformsLater(raw: RawPiece, now: Date, later: Date)
    requires Conforms(raw, now) && DateLe(now, later)
    ensures Conforms(raw, later)
  {
    DateLeIsTotalOrder(raw.dateOfRelease.value, now, later);
  }

  /** A stored piece conforms to the schema at time `now`. */
  predicate PieceConforms(p: Piece, now: Date) {
    Conforms(AsRaw(None, p), now)
  }
}
