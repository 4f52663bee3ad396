# QueryString: trusted SQL text and its conversion gate

This project models `sqlx-core/src/query_string.rs`, the file of SQLx that
decides which text may be executed as a query. The file has two parts.

- `QueryString` is an immutable SQL text. Its private `Repr` stores the text
  in one of four ways: borrowed (`Slice`), `'static` (`Static`), owned
  (`Boxed`) or shared (`Arced`).
- `QuerySafeStr::into_query_string` builds one. The file implements it for a
  bare `&'static str`, for text wrapped in the `AssertQuerySafe` marker
  (`&str`, `String`, `Box<str>`, `Arc<str>`), and for an existing
  `QueryString` (identity). Any other implementation must go through these,
  since `QueryString`'s field and `Repr` are private.

On top of these sit `into_static`, `as_str`, `as_ref`, `borrow`, content
equality and hashing. Every one of them is a total match or a delegation, so the
model is pure: datatypes, functions and lemmas, in two modules.

- `RustStr` (`rust_str.dfy`) holds the `str` pieces the file relies on. Text is
  a sequence of bytes, and `str == str` is byte-wise comparison. The lemma
  `StrEqIffSame` shows, by induction, that this comparison is exactly equality
  of byte sequences.
- `QueryStrings` (`query_string.dfy`) holds the file itself. `Repr` and
  `QueryString` are datatypes, and `Mode` is the storage tag. The producer set
  is the datatype `Producer`, which has no constructor for an unwrapped dynamic
  string. The `&'static str` impl and each `AssertQuerySafe` impl is its own
  function; the identity impl for `QueryString` is the `Query` arm of
  `IntoQueryString`. `Hash` takes the caller's hasher as a function parameter.

## Model

| member | source | states |
|---|---|---|
| `RustStr.StrEqIffSame` | sqlx-core/src/query_string.rs:158-162 | the `str` comparison used by `eq` holds exactly when the two texts are the same bytes, for every content |
| `RustStr.StrEq` | sqlx-core/src/query_string.rs:160 | no contract of its own; `StrEqIffSame` states when it holds |
| `QueryStrings.FromParts` | sqlx-core/src/query_string.rs:99-108 | one query string per storage mode and text; it has that mode and `as_str` returns that text |
| `QueryStrings.AsStr` | sqlx-core/src/query_string.rs:132-141 | no contract of its own; `FromParts` and `AsStrKeepsAllButMode` state what it returns |
| `QueryStrings.AsStrKeepsAllButMode` | sqlx-core/src/query_string.rs:132-141 | `as_str` loses only the storage mode: the mode and the text it returns rebuild the value |
| `QueryStrings.StaticIntoQueryString` | sqlx-core/src/query_string.rs:37-42 | a bare `&'static str` converts to `Static` mode with its text unchanged |
| `QueryStrings.AssertStrRefIntoQueryString` | sqlx-core/src/query_string.rs:60-65 | an asserted `&str` converts to `Slice` mode with its text unchanged |
| `QueryStrings.AssertStringIntoQueryString` | sqlx-core/src/query_string.rs:66-72 | an asserted `String` converts to `Boxed` mode with its text unchanged |
| `QueryStrings.AssertBoxIntoQueryString` | sqlx-core/src/query_string.rs:74-79 | an asserted `Box<str>` converts to `Boxed` mode with its text unchanged |
| `QueryStrings.AssertArcIntoQueryString` | sqlx-core/src/query_string.rs:81-87 | an asserted `Arc<str>` converts to `Arced` mode with its payload unchanged |
| `QueryStrings.IntoQueryString` | sqlx-core/src/query_string.rs:32-115 | every producer converts with its text intact, and an existing `QueryString` converts to itself |
| `QueryStrings.BorrowedOnlyFromAssertedSlice` | sqlx-core/src/query_string.rs:60-65 | a conversion gives `Slice` mode exactly when the producer is an asserted `&str` or an already borrowed query string |
| `QueryStrings.EveryQueryStringPassesTheGate` | sqlx-core/src/query_string.rs:32-87 | every query string, in every mode, is the conversion of some static or asserted text |
| `QueryStrings.IntoStatic` | sqlx-core/src/query_string.rs:117-130 | `into_static` keeps the text, never returns `Slice`, turns `Slice` into `Boxed`, and returns every other value unchanged |
| `QueryStrings.IntoStaticIdempotent` | sqlx-core/src/query_string.rs:123-130 | applying `into_static` twice is the same as applying it once |
| `QueryStrings.IntoStaticAfterGate` | sqlx-core/src/query_string.rs:118-130 | after any conversion, `into_static` gives a borrow-free value with the producer's text, and changes the value only when it came from an asserted `&str` or a borrowed query string |
| `QueryStrings.AsRef` | sqlx-core/src/query_string.rs:144-149 | no contract of its own; `AsRefAndBorrowReadTheText` states what it returns |
| `QueryStrings.Borrow` | sqlx-core/src/query_string.rs:151-156 | no contract of its own; `AsRefAndBorrowReadTheText` states what it returns |
| `QueryStrings.AsRefAndBorrowReadTheText` | sqlx-core/src/query_string.rs:144-156 | `as_ref` and `borrow` return the text the producer supplied, and for every mode and text they return exactly the stored text |
| `QueryStrings.PartialEqStr` | sqlx-core/src/query_string.rs:158-162 | no contract of its own; `EqIffSameText` states when it holds |
| `QueryStrings.EqQuery` | sqlx-core/src/query_string.rs:158-164 | no contract of its own; `EqIgnoresMode` and the `Eq` laws state when it holds |
| `QueryStrings.EqIffSameText` | sqlx-core/src/query_string.rs:158-162 | a query string equals a string exactly when its text is that string |
| `QueryStrings.EqIgnoresMode` | sqlx-core/src/query_string.rs:158-162 | two query strings are equal exactly when their texts are, whatever their modes |
| `QueryStrings.EqReflexive` | sqlx-core/src/query_string.rs:164 | equality is reflexive |
| `QueryStrings.EqSymmetric` | sqlx-core/src/query_string.rs:164 | equality is symmetric |
| `QueryStrings.EqTransitive` | sqlx-core/src/query_string.rs:164 | equality is transitive |
| `QueryStrings.Hash` | sqlx-core/src/query_string.rs:166-170 | no contract of its own; `HashIgnoresMode` and `BorrowAgreesWithStr` state what it depends on |
| `QueryStrings.HashIgnoresMode` | sqlx-core/src/query_string.rs:166-170 | equal query strings hash equally under any hasher, whatever their modes |
| `QueryStrings.BorrowAgreesWithStr` | sqlx-core/src/query_string.rs:151-170 | comparing and hashing a query string agree with comparing and hashing the `str` it borrows as |
| `QueryStrings.SelectOneRoundTrip` | sqlx-core/src/query_string.rs:37-42 | the static text "SELECT 1" converts to `Static` mode and reads back as "SELECT 1" |
| `QueryStrings.AssertedStringRoundTrip` | sqlx-core/src/query_string.rs:66-72 | an asserted run-time `String` converts with its text intact |
| `QueryStrings.StaticAndOwnedAgree` | sqlx-core/src/query_string.rs:158-170 | static "x" and an asserted owned "x" have different modes, but they are equal and hash equally |

## Notes on the source

- `sqlx-core/src/query_string.rs:85` builds `Repr::Arced(self.into())`. That
  converts the `AssertQuerySafe` wrapper itself, not its payload `self.0`. The
  file has no conversion from the wrapper into `Arc<str>`, so the line does not
  type-check as written, and it has no behaviour to model. The evident intent
  is that the `Arc<str>` payload is carried over unchanged, with no copy.
  `AssertArcIntoQueryString` models that intent.

## Left out

- Lifetimes (`'a` against `'static`) are not modelled. The compile-time
  rejection of an unwrapped `String` is shown only as the absence of a
  `Producer` constructor for it. `into_static`'s lifetime erasure appears as
  "the result is never `Slice`".
- Allocation and copying are not modelled. "No copy" appears only as "the value
  is returned unchanged". The `String` to `Box<str>` step keeps the bytes and
  drops the capacity, which is a size concern only.
- Thread safety (`Arc` chosen over `Rc`, `Send`) is not modelled. It is a
  type-level guarantee with no runtime behaviour.
- The internals of `Hasher` are not modelled. The hasher is a function the
  caller passes in, and `str`'s own hashing is folded into that function.
- UTF-8 validity of `str` is not modelled. No operation in the file inspects or
  alters the bytes, so validity is carried along unchanged.
- The privacy of `QueryString`'s field and of `Repr` has no counterpart in the
  model. Any Dafny code can build a `QueryString` directly, so the model shows
  that every value is reachable through the gate, not that the gate is the only
  way to build one.
- The derived `Clone` and `Debug` impls and the link to `query()` are not
  modelled. `query()` is not part of this model.
