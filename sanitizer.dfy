/**
 * The request sanitizer of the middleware: a copy of a struct value in which every field
 * whose lower-cased name is sensitive is masked, fields of nested structs are treated the
 * same way, and everything else is copied.
 *
 * Go's reflection is replaced by an explicit representation of the values it walks: a
 * `Value` is what `reflect.ValueOf` sees, and every struct field records its name, whether
 * it is exported (whether `CanInterface` holds), and the kind of its declared type.
 */
module Sanitizer {
  import opened Wrappers

  /** The kinds of a field's declared type that the sanitizer tells apart. */
  datatype Kind = StringKind | StructKind | PtrKind | InterfaceKind | OtherKind

  datatype Value =
    | Nil                          // a nil interface
    | Str(s: string)
    | Scalar(bits: int)            // any other value (number, bool, slice, map), opaque; zero is Scalar(0)
    | Ptr(target: Option<Value>)   // a pointer; Ptr(None) is a nil pointer
    | Struct(fields: seq<Field>)

  datatype Field = Field(name: string, exported: bool, kind: Kind, value: Value)

  const RedactedMarker: string := "[REDACTED]"

  /** The sensitive names `sanitizeRequest` passes, compared against lower-cased field names. */
  const SensitiveFields: set<string> := {"password", "token", "secret", "apikey", "apiKey", "auth"}

  // ---------------------------------------------------------------------------
  // strings.ToLower on ASCII letters

  function LowerChar(c: char): (d: char)
    ensures !('A' <= d <= 'Z')
    ensures 'a' <= c <= 'z' ==> d == c
  {
    if 'A' <= c <= 'Z' then (c as int - 'A' as int + 'a' as int) as char else c
  }

  function ToLower(s: string): (r: string)
    ensures |r| == |s|
  {
    if s == [] then [] else [LowerChar(s[0])] + ToLower(s[1..])
  }

  lemma {:induction false} ToLowerAt(s: string, i: int)
    requires 0 <= i < |s|
    ensures ToLower(s)[i] == LowerChar(s[i])
  {
    if i > 0 {
      ToLowerAt(s[1..], i - 1);
    }
  }

  predicate IsSensitive(name: string, sensitive: set<string>) {
    ToLower(name) in sensitive
  }

  /** The set entry "apiKey" can never match: a lower-cased name has no upper-case letter. */
  lemma MixedCaseEntryNeverMatches(name: string)
    ensures ToLower(name) != "apiKey"
  {
    if |name| == 6 {
      ToLowerAt(name, 3);
      assert ToLower(name)[3] != "apiKey"[3];
    }
  }

  /** So sanitizing with the set as written is sanitizing with it minus the dead entry. */
  lemma SensitiveSetWithoutDeadEntry(name: string)
    ensures IsSensitive(name, SensitiveFields) <==> IsSensitive(name, SensitiveFields - {"apiKey"})
  {
    MixedCaseEntryNeverMatches(name);
  }

  // ---------------------------------------------------------------------------
  // Zero values (what reflect.New gives and reflect.Zero returns)

  /** The zero value of a field's declared type; a struct's zero has the same fields, each zero. */
  function ZeroOf(f: Field): Value
    decreases f, 1
  {
    match f.kind
    case StringKind => Str("")
    case PtrKind => Ptr(None)
    case InterfaceKind => Nil
    case OtherKind => Scalar(0)
    case StructKind =>
      match f.value
      case Struct(inner) => Struct(ZeroFields(inner))
      case _ => Nil
  }

  function ZeroFields(fs: seq<Field>): (r: seq<Field>)
    decreases fs, 0
    ensures |r| == |fs|
  {
    if fs == [] then [] else [fs[0].(value := ZeroOf(fs[0]))] + ZeroFields(fs[1..])
  }

  // ---------------------------------------------------------------------------
  // The intended sanitizer

  /** The copy of one field. */
  function SanitizedField(f: Field, sensitive: set<string>): Field
    decreases f, 1
  {
    if !f.exported then
      f.(value := ZeroOf(f))                       // skipped: the copy keeps its zero value
    else if IsSensitive(f.name, sensitive) then
      if f.kind == StringKind then f.(value := Str(RedactedMarker)) else f.(value := ZeroOf(f))
    else if f.kind == StructKind && f.value.Struct? then
      f.(value := Struct(SanitizedFields(f.value.fields, sensitive)))
    else
      f
  }

  function SanitizedFields(fs: seq<Field>, sensitive: set<string>): (r: seq<Field>)
    decreases fs, 0
    ensures |r| == |fs|
  {
    if fs == [] then [] else [SanitizedField(fs[0], sensitive)] + SanitizedFields(fs[1..], sensitive)
  }

  lemma {:induction false} SanitizedFieldsAt(fs: seq<Field>, sensitive: set<string>, i: int)
    requires 0 <= i < |fs|
    ensures SanitizedFields(fs, sensitive)[i] == SanitizedField(fs[i], sensitive)
  {
    if i > 0 {
      SanitizedFieldsAt(fs[1..], sensitive, i - 1);
    }
  }

  /**
   * The value `sanitize` returns: nil for nil; for a struct, or a non-nil pointer to one, a
   * pointer to the sanitized copy; any other value unchanged.
   */
  function Sanitized(v: Value, sensitive: set<string>): Value {
    match v
    case Nil => Nil
    case Struct(fs) => Ptr(Some(Struct(SanitizedFields(fs, sensitive))))
    case Ptr(Some(Struct(fs))) => Ptr(Some(Struct(SanitizedFields(fs, sensitive))))
    case _ => v
  }

  /** `sanitizeRequest`: `sanitize` with the fixed set of sensitive names. */
  function SanitizeRequest(req: Value): Value {
    Sanitized(req, SensitiveFields)
  }

  // ---------------------------------------------------------------------------
  // The sanitizer as the source runs it: a loop that fills a freshly allocated copy

  /** `sanitize(v, sensitiveFields)`. */
  method Sanitize(v: Value, sensitive: set<string>) returns (r: Value)
    ensures r == Sanitized(v, sensitive)
  {
    if v == Nil {
      return Nil;
    }
    var rv := v;
    if v.Ptr? && v.target.Some? {
      rv := v.target.value;
    }
    if !rv.Struct? {
      return v;
    }
    var copied := CopyStruct(rv.fields, sensitive);
    r := Ptr(Some(Struct(copied)));
  }

  /** The loop over the fields of one struct; it recurses into nested struct fields. */
  method CopyStruct(fs: seq<Field>, sensitive: set<string>) returns (copied: seq<Field>)
    ensures copied == SanitizedFields(fs, sensitive)
    decreases fs
  {
    // reflect.New(rt).Elem(): every field of the copy starts at its zero value
    var out := new Field[|fs|](i requires 0 <= i < |fs| => fs[i].(value := ZeroOf(fs[i])));
    for i := 0 to |fs|
      invariant forall j :: 0 <= j < i ==> out[j] == SanitizedField(fs[j], sensitive)
      invariant forall j :: i <= j < |fs| ==> out[j] == fs[j].(value := ZeroOf(fs[j]))
    {
      var field := fs[i];
      var fieldName := ToLower(field.name);
      if !field.exported {
        continue;
      }
      if fieldName in sensitive {
        if field.kind == StringKind {
          out[i] := field.(value := Str(RedactedMarker));
        } else {
          out[i] := field.(value := ZeroOf(field));
        }
      } else if field.kind == StructKind && field.value.Struct? {
        var inner := CopyStruct(field.value.fields, sensitive);
        out[i] := field.(value := Struct(inner));
      } else {
        out[i] := field;
      }
    }
    copied := out[..];
    forall j | 0 <= j < |fs|
      ensures copied[j] == SanitizedFields(fs, sensitive)[j]
    {
      SanitizedFieldsAt(fs, sensitive, j);
    }
  }

  // ---------------------------------------------------------------------------
  // What the sanitizer promises

  /** A field holds the zero value of its declared type. */
  predicate IsZero(f: Field) {
    f.value == ZeroOf(f)
  }

  /**
   * No sensitive or unexported data is left at any depth: unexported fields are zero,
   * sensitive strings hold the marker, other sensitive fields are zero, and the fields of
   * nested structs are masked the same way.
   */
  predicate Masked(fs: seq<Field>, sensitive: set<string>)
    decreases fs
  {
    forall i :: 0 <= i < |fs| ==>
      (!fs[i].exported ==> IsZero(fs[i])) &&
      (fs[i].exported && IsSensitive(fs[i].name, sensitive) ==>
        if fs[i].kind == StringKind then fs[i].value == Str(RedactedMarker) else IsZero(fs[i])) &&
      (fs[i].exported && !IsSensitive(fs[i].name, sensitive) && fs[i].kind == StructKind && fs[i].value.Struct? ==>
        Masked(fs[i].value.fields, sensitive))
  }

  /** Nothing to mask at any depth: every field is exported and none has a sensitive name. */
  predicate Clean(fs: seq<Field>, sensitive: set<string>)
    decreases fs
  {
    forall i :: 0 <= i < |fs| ==>
      fs[i].exported && !IsSensitive(fs[i].name, sensitive) &&
      (fs[i].kind == StructKind && fs[i].value.Struct? ==> Clean(fs[i].value.fields, sensitive))
  }

  /** Fields keep their names, kinds and exported flags, in order. */
  predicate SameLayout(a: seq<Field>, b: seq<Field>) {
    |a| == |b| &&
    forall i :: 0 <= i < |a| ==> a[i].name == b[i].name && a[i].kind == b[i].kind && a[i].exported == b[i].exported
  }

  /** Zeroing a zero value changes nothing. */
  lemma {:induction false} ZeroOfIsZero(f: Field)
    ensures IsZero(f.(value := ZeroOf(f)))
    decreases f, 1
  {
    if f.kind == StructKind && f.value.Struct? {
      ZeroFieldsIdempotent(f.value.fields);
    }
  }

  lemma {:induction false} ZeroFieldsIdempotent(fs: seq<Field>)
    ensures ZeroFields(ZeroFields(fs)) == ZeroFields(fs)
    decreases fs, 0
  {
    if fs != [] {
      ZeroOfIsZero(fs[0]);
      ZeroFieldsIdempotent(fs[1..]);
      assert ZeroFields(fs)[1..] == ZeroFields(fs[1..]);
    }
  }

  /** The copy has the input's field list: same names, kinds and exported flags, in order. */
  lemma {:induction false} SanitizeKeepsLayout(fs: seq<Field>, sensitive: set<string>)
    ensures SameLayout(SanitizedFields(fs, sensitive), fs)
  {
    forall i | 0 <= i < |fs|
      ensures SanitizedFields(fs, sensitive)[i].name == fs[i].name
      ensures SanitizedFields(fs, sensitive)[i].kind == fs[i].kind
      ensures SanitizedFields(fs, sensitive)[i].exported == fs[i].exported
    {
      SanitizedFieldsAt(fs, sensitive, i);
    }
  }

  /** Sensitive fields are masked at every nesting depth, and unexported fields are zero. */
  lemma {:induction false} SanitizeMasksAtEveryDepth(fs: seq<Field>, sensitive: set<string>)
    ensures Masked(SanitizedFields(fs, sensitive), sensitive)
    decreases fs
  {
    var out := SanitizedFields(fs, sensitive);
    forall i | 0 <= i < |out|
      ensures (!out[i].exported ==> IsZero(out[i])) &&
        (out[i].exported && IsSensitive(out[i].name, sensitive) ==>
          if out[i].kind == StringKind then out[i].value == Str(RedactedMarker) else IsZero(out[i])) &&
        (out[i].exported && !IsSensitive(out[i].name, sensitive) && out[i].kind == StructKind && out[i].value.Struct? ==>
          Masked(out[i].value.fields, sensitive))
    {
      SanitizedFieldsAt(fs, sensitive, i);
      ZeroOfIsZero(fs[i]);
      if fs[i].exported && !IsSensitive(fs[i].name, sensitive) && fs[i].kind == StructKind && fs[i].value.Struct? {
        SanitizeMasksAtEveryDepth(fs[i].value.fields, sensitive);
      }
    }
  }

  /** A value with nothing to mask is copied exactly. */
  lemma {:induction false} SanitizeKeepsCleanFields(fs: seq<Field>, sensitive: set<string>)
    requires Clean(fs, sensitive)
    ensures SanitizedFields(fs, sensitive) == fs
    decreases fs
  {
    forall i | 0 <= i < |fs|
      ensures SanitizedFields(fs, sensitive)[i] == fs[i]
    {
      SanitizedFieldsAt(fs, sensitive, i);
      if fs[i].kind == StructKind && fs[i].value.Struct? {
        SanitizeKeepsCleanFields(fs[i].value.fields, sensitive);
      }
    }
  }

  /**
   * An exported field that is not on the sensitive list keeps its value: a plain field is
   * copied as it is, and a nested struct field is replaced by its own sanitized copy.
   */
  lemma SanitizeKeepsPlainFields(fs: seq<Field>, sensitive: set<string>, i: int)
    requires 0 <= i < |fs| && fs[i].exported && !IsSensitive(fs[i].name, sensitive)
    ensures !(fs[i].kind == StructKind && fs[i].value.Struct?) ==> SanitizedFields(fs, sensitive)[i] == fs[i]
    ensures fs[i].kind == StructKind && fs[i].value.Struct? ==>
      SanitizedFields(fs, sensitive)[i] == fs[i].(value := Struct(SanitizedFields(fs[i].value.fields, sensitive)))
  {
    SanitizedFieldsAt(fs, sensitive, i);
  }

  /** Sanitizing a sanitized copy changes nothing. */
  lemma {:induction false} SanitizeIdempotent(fs: seq<Field>, sensitive: set<string>)
    ensures SanitizedFields(SanitizedFields(fs, sensitive), sensitive) == SanitizedFields(fs, sensitive)
    decreases fs
  {
    var once := SanitizedFields(fs, sensitive);
    forall i | 0 <= i < |fs|
      ensures SanitizedFields(once, sensitive)[i] == once[i]
    {
      SanitizedFieldsAt(fs, sensitive, i);
      SanitizedFieldsAt(once, sensitive, i);
      ZeroOfIsZero(fs[i]);
      if fs[i].exported && !IsSensitive(fs[i].name, sensitive) && fs[i].kind == StructKind && fs[i].value.Struct? {
        SanitizeIdempotent(fs[i].value.fields, sensitive);
      }
    }
  }

  /** Nil stays nil, and a value that is not a struct after one dereference comes back unchanged. */
  lemma SanitizePassesNonStructs(v: Value, sensitive: set<string>)
    requires !v.Struct? && !(v.Ptr? && v.target.Some? && v.target.value.Struct?)
    ensures Sanitized(v, sensitive) == v
  {
  }

  /**
   * A pointer or interface field is copied as it is, so a struct behind it is not sanitized:
   * a password reached through a pointer field appears in the copy unmasked.
   */
  lemma PointerFieldsCopiedShallow()
    ensures var inner := Struct([Field("Password", true, StringKind, Str("hunter2"))]);
      var req := Struct([Field("Msg", true, PtrKind, Ptr(Some(inner)))]);
      SanitizeRequest(req) == Ptr(Some(req))
  {
    var inner := Struct([Field("Password", true, StringKind, Str("hunter2"))]);
    var req := Struct([Field("Msg", true, PtrKind, Ptr(Some(inner)))]);
    PlainExampleShortNames();
    assert SanitizedFields(req.fields, SensitiveFields) == req.fields;
  }

  /** A login request: the password is masked, its sibling is kept, a nested token is masked too. */
  lemma LoginRequestExample()
    ensures SanitizeRequest(Struct(LoginRequest())) == Ptr(Some(Struct([
        Field("Username", true, StringKind, Str("ada")),
        Field("Password", true, StringKind, Str(RedactedMarker)),
        Field("Session", true, StructKind, Struct([Field("Token", true, StringKind, Str(RedactedMarker)), Field("Id", true, OtherKind, Scalar(7))])),
        Field("retries", false, OtherKind, Scalar(0))])))
  {
    var req := LoginRequest();
    LowerNames();
    var f0 := SanitizedField(req[0], SensitiveFields);
    var f1 := SanitizedField(req[1], SensitiveFields);
    var f2 := SanitizedField(req[2], SensitiveFields);
    var f3 := SanitizedField(req[3], SensitiveFields);
    assert f0 == Field("Username", true, StringKind, Str("ada"));
    assert f1 == Field("Password", true, StringKind, Str(RedactedMarker));
    assert f2 == Field("Session", true, StructKind, Struct(SanitizedFields(SessionFields(), SensitiveFields)));
    assert f3 == Field("retries", false, OtherKind, Scalar(0));
    SessionExample();
    Unfold4(req, SensitiveFields);
  }

  function LoginRequest(): seq<Field> {
    [Field("Username", true, StringKind, Str("ada")),
     Field("Password", true, StringKind, Str("hunter2")),
     Field("Session", true, StructKind, Struct(SessionFields())),
     Field("retries", false, OtherKind, Scalar(3))]
  }

  function SessionFields(): seq<Field> {
    [Field("Token", true, StringKind, Str("abc")), Field("Id", true, OtherKind, Scalar(7))]
  }

  lemma SessionExample()
    ensures SanitizedFields(SessionFields(), SensitiveFields) ==
      [Field("Token", true, StringKind, Str(RedactedMarker)), Field("Id", true, OtherKind, Scalar(7))]
  {
    Unfold2(SessionFields(), SensitiveFields);
    LowerNames();
  }

  // The lower-cased names of the example fields, two at a time to keep each proof small.

  lemma LowerNames()
    ensures IsSensitive("Password", SensitiveFields) && IsSensitive("Token", SensitiveFields)
    ensures !IsSensitive("Username", SensitiveFields) && !IsSensitive("Session", SensitiveFields)
    ensures !IsSensitive("Id", SensitiveFields) && !IsSensitive("Msg", SensitiveFields)
  {
    SensitiveExampleNames();
    PlainExampleNames();
    PlainExampleShortNames();
  }

  lemma SensitiveExampleNames()
    ensures IsSensitive("Password", SensitiveFields) && IsSensitive("Token", SensitiveFields)
  {
    assert ToLower("Password") == "password";
    assert ToLower("Token") == "token";
  }

  lemma PlainExampleNames()
    ensures !IsSensitive("Username", SensitiveFields) && !IsSensitive("Session", SensitiveFields)
  {
    assert ToLower("Username") == "username";
    assert ToLower("Session") == "session";
  }

  lemma PlainExampleShortNames()
    ensures !IsSensitive("Id", SensitiveFields) && !IsSensitive("Msg", SensitiveFields)
  {
    assert ToLower("Id") == "id";
    assert ToLower("Msg") == "msg";
  }

  lemma Unfold2(fs: seq<Field>, sensitive: set<string>)
    requires |fs| == 2
    ensures SanitizedFields(fs, sensitive) == [SanitizedField(fs[0], sensitive), SanitizedField(fs[1], sensitive)]
  {
    assert fs[1..][1..] == [];
  }

  lemma Unfold4(fs: seq<Field>, sensitive: set<string>)
    requires |fs| == 4
    ensures SanitizedFields(fs, sensitive) ==
      [SanitizedField(fs[0], sensitive), SanitizedField(fs[1], sensitive), SanitizedField(fs[2], sensitive), SanitizedField(fs[3], sensitive)]
  {
    Unfold2(fs[2..], sensitive);
    assert fs[1..][1..] == fs[2..];
  }

  // ---------------------------------------------------------------------------
  // The nested-struct branch as written
  //
  // `sanitize` returns `copied.Addr().Interface()`, a pointer to the copy. The branch for a
  // non-sensitive struct field stores that pointer into the struct-typed field with
  // `reflect.Value.Set`, which panics because `*T` is not assignable to `T`. The functions
  // below model that behaviour; the rest of the model uses the intended recursion above.

  datatype Panic = SetNotAssignable(field: string)

  /**
   * `reflect.Value.Set` of `v` into field `f`, judged by kind only: it panics unless `v` has
   * the field's kind, so a pointer never fits a struct-typed field.
   */
  function Assign(f: Field, v: Value): (r: Result<Field, Panic>)
    ensures r.Success? ==> r.value == f.(value := v)
    ensures f.kind == StructKind && v.Ptr? ==> r == Failure(SetNotAssignable(f.name))
  {
    var fits := match f.kind
      case StringKind => v.Str?
      case StructKind => v.Struct?
      case PtrKind => v.Ptr?
      case OtherKind => v.Scalar?
      case InterfaceKind => true;
    if fits then Success(f.(value := v)) else Failure(SetNotAssignable(f.name))
  }

  /** `sanitize` as written: when it does not panic, it returns what the intended sanitizer does. */
  function SanitizedAsWritten(v: Value, sensitive: set<string>): (r: Result<Value, Panic>)
    decreases v, 1
    ensures r.Success? ==> r.value == Sanitized(v, sensitive)
  {
    match v
    case Nil => Success(Nil)
    case Struct(fs) =>
      (match FieldsAsWritten(fs, sensitive)
       case Success(copied) => Success(Ptr(Some(Struct(copied))))
       case Failure(p) => Failure(p))
    case Ptr(Some(Struct(fs))) =>
      (match FieldsAsWritten(fs, sensitive)
       case Success(copied) => Success(Ptr(Some(Struct(copied))))
       case Failure(p) => Failure(p))
    case _ => Success(v)
  }

  /** One turn of the field loop as written; a field it does not panic on is copied as intended. */
  function FieldAsWritten(f: Field, sensitive: set<string>): (r: Result<Field, Panic>)
    decreases f, 2
    ensures r.Success? ==> r.value == SanitizedField(f, sensitive)
  {
    if !f.exported then
      Success(f.(value := ZeroOf(f)))
    else if IsSensitive(f.name, sensitive) then
      if f.kind == StringKind then Success(f.(value := Str(RedactedMarker))) else Success(f.(value := ZeroOf(f)))
    else if f.kind == StructKind && f.value.Struct? then
      match SanitizedAsWritten(f.value, sensitive)
      case Success(sanitized) => Assign(f, sanitized)
      case Failure(p) => Failure(p)
    else
      Success(f)
  }

  /** The field loop as written: it stops at the first panic, and otherwise agrees with `SanitizedFields`. */
  function FieldsAsWritten(fs: seq<Field>, sensitive: set<string>): (r: Result<seq<Field>, Panic>)
    decreases fs, 0
    ensures r.Success? ==> r.value == SanitizedFields(fs, sensitive)
  {
    if fs == [] then Success([])
    else
      match FieldAsWritten(fs[0], sensitive)
      case Failure(p) => Failure(p)
      case Success(f) =>
        match FieldsAsWritten(fs[1..], sensitive)
        case Failure(p) => Failure(p)
        case Success(rest) => Success([f] + rest)
  }

  /** An exported, non-sensitive field whose declared type is a struct. */
  predicate NestedStructField(f: Field, sensitive: set<string>) {
    f.exported && !IsSensitive(f.name, sensitive) && f.kind == StructKind && f.value.Struct?
  }

  /** As written, any struct with a nested-struct field makes `sanitize` panic. */
  lemma {:induction false} NestedStructPanicsAsWritten(fs: seq<Field>, sensitive: set<string>, j: int)
    requires 0 <= j < |fs| && NestedStructField(fs[j], sensitive)
    ensures FieldsAsWritten(fs, sensitive).Failure?
    decreases fs
  {
    if j == 0 {
      match SanitizedAsWritten(fs[0].value, sensitive)
      case Success(sanitized) =>
        assert sanitized.Ptr?;
      case Failure(_) =>
    } else if FieldAsWritten(fs[0], sensitive).Success? {
      NestedStructPanicsAsWritten(fs[1..], sensitive, j - 1);
    }
  }

  /** As written, a struct without nested-struct fields is sanitized as intended. */
  lemma {:induction false} FlatStructAsWrittenAgrees(fs: seq<Field>, sensitive: set<string>)
    requires forall i :: 0 <= i < |fs| ==> !NestedStructField(fs[i], sensitive)
    ensures FieldsAsWritten(fs, sensitive) == Success(SanitizedFields(fs, sensitive))
    decreases fs
  {
    if fs != [] {
      FlatStructAsWrittenAgrees(fs[1..], sensitive);
    }
  }

  /** The login request that the intended sanitizer masks makes the code as written panic. */
  lemma LoginRequestPanicsAsWritten()
    ensures SanitizedAsWritten(Struct(LoginRequest()), SensitiveFields).Failure?
  {
    PlainExampleNames();
    NestedStructPanicsAsWritten(LoginRequest(), SensitiveFields, 2);
  }
}
