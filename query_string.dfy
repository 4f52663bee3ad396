/** A SQL text cleared to reach a database connection (`QueryString`), and the
    closed set of producers that may become one (`QuerySafeStr`).

    The value stores its text in one of four ways; every observation of it
    (`as_str`, `as_ref`, `borrow`, `==`, `hash`) sees only the text. */
module QueryStrings {
  import opened RustStr

  /** The private storage of a query string. */
  datatype Repr =
    | Slice(Bytes)   // `&'a str`: borrowed for a bounded lifetime
    | Static(Bytes)  // `&'static str`: kept so that permanent text is never copied
    | Boxed(Bytes)   // `Box<str>`: exclusively owned
    | Arced(Bytes)   // `Arc<str>`: shared ownership, safe across threads

  datatype QueryString = QueryString(repr: Repr)

  /** The storage mode of a query string: its `Repr` tag without the text. */
  datatype Mode = SliceMode | StaticMode | BoxedMode | ArcedMode

  function ModeOf(q: QueryString): Mode {
    match q.repr
    case Slice(_) => SliceMode
    case Static(_) => StaticMode
    case Boxed(_) => BoxedMode
    case Arced(_) => ArcedMode
  }

  /** The query string with storage mode `m` holding the text `s`. */
  function FromParts(m: Mode, s: Bytes): (q: QueryString)
    ensures ModeOf(q) == m && AsStr(q) == s
  {
    match m
    case SliceMode => QueryString(Slice(s))
    case StaticMode => QueryString(Static(s))
    case BoxedMode => QueryString(Boxed(s))
    case ArcedMode => QueryString(Arced(s))
  }

  /** `QueryString::as_str`: the text, whatever the storage. */
  function AsStr(q: QueryString): Bytes {
    match q.repr
    case Slice(s) => s
    case Static(s) => s
    case Boxed(s) => s
    case Arced(s) => s
  }

  /** `as_str` loses nothing but the storage mode: the mode and the text
      together give back the value. */
  lemma AsStrKeepsAllButMode(q: QueryString)
    ensures FromParts(ModeOf(q), AsStr(q)) == q
  {
  }

  // ---------------------------------------------------------------------------
  // The trust gate: `QuerySafeStr::into_query_string`, one impl per producer.
  // ---------------------------------------------------------------------------

  /** The types `AssertQuerySafe<T>` may wrap; wrapping is the caller's
      statement that the text is safe, and nothing inspects it. */
  datatype Asserted =
    | StrRef(Bytes)       // `AssertQuerySafe<&'a str>`
    | OwnedString(Bytes)  // `AssertQuerySafe<String>`
    | BoxStr(Bytes)       // `AssertQuerySafe<Box<str>>`
    | ArcStr(Bytes)       // `AssertQuerySafe<Arc<str>>`

  /** The types this file implements `QuerySafeStr` for. Any other
      implementation must go through these, since the field of `QueryString`
      and `Repr` are private. An unwrapped dynamic string has no constructor
      here. */
  datatype Producer =
    | StaticStr(Bytes)              // `&'static str`
    | AssertQuerySafe(asserted: Asserted)
    | Query(query: QueryString)

  /** The text a producer carries. */
  function Content(p: Producer): Bytes {
    match p
    case StaticStr(s) => s
    case AssertQuerySafe(StrRef(s)) => s
    case AssertQuerySafe(OwnedString(s)) => s
    case AssertQuerySafe(BoxStr(s)) => s
    case AssertQuerySafe(ArcStr(s)) => s
    case Query(q) => AsStr(q)
  }

  /** `&'static str` converts without a wrapper, kept as static text. */
  function StaticIntoQueryString(s: Bytes): (q: QueryString)
    ensures ModeOf(q) == StaticMode && AsStr(q) == s
  {
    QueryString(Static(s))
  }

  /** `AssertQuerySafe<&'a str>` keeps the borrow, copying nothing. */
  function AssertStrRefIntoQueryString(s: Bytes): (q: QueryString)
    ensures ModeOf(q) == SliceMode && AsStr(q) == s
  {
    QueryString(Slice(s))
  }

  /** `AssertQuerySafe<String>` becomes an owned `Box<str>` of the same text. */
  function AssertStringIntoQueryString(s: Bytes): (q: QueryString)
    ensures ModeOf(q) == BoxedMode && AsStr(q) == s
  {
    QueryString(Boxed(s))
  }

  /** `AssertQuerySafe<Box<str>>` hands its box over. */
  function AssertBoxIntoQueryString(s: Bytes): (q: QueryString)
    ensures ModeOf(q) == BoxedMode && AsStr(q) == s
  {
    QueryString(Boxed(s))
  }

  /** `AssertQuerySafe<Arc<str>>` hands its shared allocation over. */
  function AssertArcIntoQueryString(s: Bytes): (q: QueryString)
    ensures ModeOf(q) == ArcedMode && AsStr(q) == s
  {
    QueryString(Arced(s))
  }

  /** `into_query_string` on any producer. The text always survives; an
      existing query string comes back untouched. */
  function IntoQueryString(p: Producer): (q: QueryString)
    ensures AsStr(q) == Content(p)
    ensures p.Query? ==> q == p.query
  {
    match p
    case StaticStr(s) => StaticIntoQueryString(s)
    case AssertQuerySafe(StrRef(s)) => AssertStrRefIntoQueryString(s)
    case AssertQuerySafe(OwnedString(s)) => AssertStringIntoQueryString(s)
    case AssertQuerySafe(BoxStr(s)) => AssertBoxIntoQueryString(s)
    case AssertQuerySafe(ArcStr(s)) => AssertArcIntoQueryString(s)
    case Query(q) => q
  }

  /** The producers that hold a borrow: an asserted `&str`, or a query string
      that is already borrowed. They are the only ones `into_static` copies. */
  predicate IsBorrowedProducer(p: Producer) {
    (p.AssertQuerySafe? && p.asserted.StrRef?) || (p.Query? && ModeOf(p.query) == SliceMode)
  }

  /** A borrowed query string comes only from an asserted `&str`, or is an
      existing borrowed query string passed through. */
  lemma BorrowedOnlyFromAssertedSlice(p: Producer)
    ensures ModeOf(IntoQueryString(p)) == SliceMode
        <==> IsBorrowedProducer(p)
  {
  }

  /** Every query string, in every mode and with every text, is the result of
      converting static or asserted text: every value is reachable through
      the gate. */
  lemma EveryQueryStringPassesTheGate(q: QueryString)
    ensures exists p: Producer :: !p.Query? && IntoQueryString(p) == q
  {
    match q.repr
    case Slice(s) => assert IntoQueryString(AssertQuerySafe(StrRef(s))) == q;
    case Static(s) => assert IntoQueryString(StaticStr(s)) == q;
    case Boxed(s) => assert IntoQueryString(AssertQuerySafe(BoxStr(s))) == q;
    case Arced(s) => assert IntoQueryString(AssertQuerySafe(ArcStr(s))) == q;
  }

  // ---------------------------------------------------------------------------
  // Erasing the borrow.
  // ---------------------------------------------------------------------------

  /** `QueryString::into_static`: copies the text into an owned box only when
      it was borrowed; any other value is returned as it is. */
  function IntoStatic(q: QueryString): (r: QueryString)
    ensures AsStr(r) == AsStr(q)
    ensures ModeOf(r) != SliceMode
    ensures ModeOf(q) == SliceMode ==> ModeOf(r) == BoxedMode
    ensures ModeOf(q) != SliceMode ==> r == q
  {
    QueryString(
      match q.repr
      case Slice(s) => Boxed(s)
      case Static(s) => Static(s)
      case Boxed(s) => Boxed(s)
      case Arced(s) => Arced(s))
  }

  lemma IntoStaticIdempotent(q: QueryString)
    ensures IntoStatic(IntoStatic(q)) == IntoStatic(q)
  {
  }

  /** Whatever crossed the gate can be made borrow-free with its text intact;
      only an asserted `&str` (or a borrowed query string) is copied. */
  lemma IntoStaticAfterGate(p: Producer)
    ensures ModeOf(IntoStatic(IntoQueryString(p))) != SliceMode
    ensures AsStr(IntoStatic(IntoQueryString(p))) == Content(p)
    ensures IntoStatic(IntoQueryString(p)) == IntoQueryString(p)
        <==> !IsBorrowedProducer(p)
  {
  }

  // ---------------------------------------------------------------------------
  // Reading, comparing and hashing.
  // ---------------------------------------------------------------------------

  /** `AsRef<str>::as_ref`. */
  function AsRef(q: QueryString): Bytes {
    AsStr(q)
  }

  /** `Borrow<str>::borrow`. */
  function Borrow(q: QueryString): Bytes {
    AsStr(q)
  }

  /** `as_ref` and `borrow` give back the text that went in, whichever
      producer built the value and whichever mode stores it. */
  lemma AsRefAndBorrowReadTheText(p: Producer)
    ensures AsRef(IntoQueryString(p)) == Content(p) && Borrow(IntoQueryString(p)) == Content(p)
    ensures forall m, s :: AsRef(FromParts(m, s)) == s && Borrow(FromParts(m, s)) == s
  {
  }

  /** `PartialEq<T: AsRef<str>>::eq`, with `other` given as `other.as_ref()`. */
  function PartialEqStr(q: QueryString, other: Bytes): bool {
    StrEq(AsStr(q), other)
  }

  /** `==` between two query strings, the right one read through `AsRef<str>`. */
  function EqQuery(a: QueryString, b: QueryString): bool {
    PartialEqStr(a, AsRef(b))
  }

  /** A query string equals a string exactly when its text is that string. */
  lemma EqIffSameText(q: QueryString, other: Bytes)
    ensures PartialEqStr(q, other) <==> AsStr(q) == other
  {
    StrEqIffSame(AsStr(q), other);
  }

  /** Equality ignores the storage mode: it compares the texts only. */
  lemma EqIgnoresMode(a: QueryString, b: QueryString)
    ensures EqQuery(a, b) <==> AsStr(a) == AsStr(b)
    ensures forall m :: EqQuery(a, FromParts(m, AsStr(a)))
  {
    EqIffSameText(a, AsRef(b));
    forall m ensures EqQuery(a, FromParts(m, AsStr(a))) {
      EqIffSameText(a, AsRef(FromParts(m, AsStr(a))));
    }
  }

  /** `Eq for QueryString`: equality is reflexive ... */
  lemma EqReflexive(a: QueryString)
    ensures EqQuery(a, a)
  {
    EqIgnoresMode(a, a);
  }

  /** ... symmetric ... */
  lemma EqSymmetric(a: QueryString, b: QueryString)
    ensures EqQuery(a, b) == EqQuery(b, a)
  {
    EqIgnoresMode(a, b);
    EqIgnoresMode(b, a);
  }

  /** ... and transitive. */
  lemma EqTransitive(a: QueryString, b: QueryString, c: QueryString)
    requires EqQuery(a, b) && EqQuery(b, c)
    ensures EqQuery(a, c)
  {
    EqIgnoresMode(a, b);
    EqIgnoresMode(b, c);
    EqIgnoresMode(a, c);
  }

  /** `Hash::hash`: feeds `as_str()` to the caller's hasher `write`, whose
      running state is `state`. */
  function Hash<S>(q: QueryString, write: (S, Bytes) -> S, state: S): S {
    write(state, AsStr(q))
  }

  /** Equal query strings hash equally, whatever their storage modes. */
  lemma HashIgnoresMode<S>(a: QueryString, b: QueryString, write: (S, Bytes) -> S, state: S)
    requires EqQuery(a, b)
    ensures Hash(a, write, state) == Hash(b, write, state)
  {
    EqIgnoresMode(a, b);
  }

  /** The promise behind `Borrow<str>`: comparing and hashing a query string
      agree with comparing and hashing the `str` it borrows as, so a map keyed
      by query strings can be searched with a plain `str`. */
  lemma BorrowAgreesWithStr<S>(a: QueryString, b: QueryString, write: (S, Bytes) -> S, state: S)
    ensures EqQuery(a, b) <==> StrEq(Borrow(a), Borrow(b))
    ensures Hash(a, write, state) == write(state, Borrow(a))
  {
  }

  // ---------------------------------------------------------------------------
  // Worked cases.
  // ---------------------------------------------------------------------------

  const SelectOne: Bytes := Ascii("SELECT 1")

  /** Converting the static text "SELECT 1" keeps it static, and reading it
      back gives exactly "SELECT 1". */
  lemma SelectOneRoundTrip()
    ensures ModeOf(IntoQueryString(StaticStr(SelectOne))) == StaticMode
    ensures AsStr(IntoQueryString(StaticStr(SelectOne))) == SelectOne
  {
  }

  /** A run-time built `String`, once asserted, converts with its text intact. */
  lemma AssertedStringRoundTrip()
    ensures var s := Ascii("SELECT * FROM t WHERE id = 5");
      AsStr(IntoQueryString(AssertQuerySafe(OwnedString(s)))) == s
  {
  }

  /** Static "x" and an asserted owned "x" are equal and hash equally. */
  lemma StaticAndOwnedAgree<S>(write: (S, Bytes) -> S, state: S)
    ensures var a := IntoQueryString(StaticStr(Ascii("x")));
      var b := IntoQueryString(AssertQuerySafe(OwnedString(Ascii("x"))));
      ModeOf(a) != ModeOf(b) && EqQuery(a, b) && Hash(a, write, state) == Hash(b, write, state)
  {
  }
}
