/** Results and the error codes the modelled operations report (kernel/errors.go). */
module Kernel {

  datatype Option<+T> = None | Some(value: T)

  datatype Result<+T> = Success(value: T) | Failure(error: ErrorCode)
  {
    predicate IsFailure() { Failure? }

    function PropagateFailure<U>(): Result<U>
      requires Failure?
    {
      Failure(error)
    }

    function Extract(): T
      requires Success?
    {
      value
    }
  }

  datatype ErrorCode =
    | UsageInvalid
    | WriteTargetRequired
    | ScopeDenied
    | PreconditionFailed
    | TargetRepositoryDenied
    | TemporaryUnavailable
    | CapabilityUnsatisfied
    | ObjectIdConflict
    | IdempotencyConflict
    | Forbidden
    | Unauthenticated
    | NonFastForward
    | SchemaUnsupported
    | SchemaRevisionUnresolved
    | SchemaInstanceInvalid
    | SchemaIncompatible
    | Unavailable(detail: string)

  /** `unicode.IsSpace`. */
  predicate IsSpace(c: char)
  {
    || c == ' ' || '\t' <= c <= '\r' || c == '\U{85}' || c == '\U{A0}' || c == '\U{1680}' || '\U{2000}' <= c <= '\U{200A}'
    || c == '\U{2028}' || c == '\U{2029}' || c == '\U{202F}' || c == '\U{205F}' || c == '\U{3000}'
  }

  /** Of the first 128 characters these six are spaces. */
  lemma AsciiSpaces(c: char)
    requires c as int < 128
    ensures IsSpace(c) <==> c in {' ', '\t', '\n', '\U{B}', '\U{C}', '\r'}
  {}

  /** `strings.TrimSpace`. */
  function TrimSpace(s: string): (r: string)
    ensures |r| <= |s|
    ensures r != [] ==> !IsSpace(r[0]) && !IsSpace(r[|r| - 1])
    decreases |s|
  {
    if s == [] then []
    else if IsSpace(s[0]) then TrimSpace(s[1..])
    else if IsSpace(s[|s| - 1]) then TrimSpace(s[..|s| - 1])
    else s
  }
}

/** Addresses, values and declarations of knowledge units (knowledge/address.go,
knowledge/binding.go). */
module Knowledge {
  import opened Kernel
  import Order = Text

  datatype Json =
    | Null
    | Bool(flag: bool)
    | Number(literal: string)
    | Text(text: string)
    | List(items: seq<Json>)
    | Object(fields: map<string, Json>)

  datatype AddressKind = Entity | Aspect | Member | Relation | Record

  datatype Address = Address(kind: AddressKind, objectId: string, aspectName: string, memberKey: string)

  const SEPARATOR: char := '\U{001F}'

  function AddressKey(a: Address): (key: string)
  {
    a.objectId + [SEPARATOR] + a.aspectName + [SEPARATOR] + a.memberKey
  }

  predicate IsEntityBlob(a: Address)
  {
    a.aspectName == "" && a.memberKey == ""
  }

  predicate Writable(a: Address)
  {
    var aspect, member := TrimSpace(a.aspectName), TrimSpace(a.memberKey);
    match a.kind
    case Entity | Relation => aspect == "" && member == ""
    case Aspect | Record => aspect != "" && member == ""
    case Member => aspect != "" && member != ""
  }

  /** An address can be written exactly if it names an aspect where its kind has one and a member where
  its kind is one, and neither anywhere else. */
  lemma WritableMeans(a: Address)
    ensures Writable(a) <==>
      && (TrimSpace(a.aspectName) != "" <==> a.kind in {Aspect, Record, Member})
      && (TrimSpace(a.memberKey) != "" <==> a.kind == Member)
  {}

  datatype BindingMode = State | Stream

  datatype ValueSource = ValueSource(kind: string, binding: Option<BindingMode>)

  function Normalized(source: Option<ValueSource>): Option<ValueSource>
  {
    if source.None? || source.value.kind == "" || source.value.kind == "snapshot" then None else source
  }

  predicate ValidValueSource(source: Option<ValueSource>)
  {
    if Normalized(source).None? then source.None? || source.value.binding.None?
    else source.value.kind == "binding" && source.value.binding.Some?
  }

  /** Canonical digests, taken as injective: a digest is what was digested. */
  datatype Digest =
    | NoDigest
    | ValueDigest(content: Json)
    | DeclarationDigest(schemaRef: string, source: Option<ValueSource>)

  function DigestOf(value: Json): Digest
  {
    ValueDigest(value)
  }

  function DigestOfDeclaration(schemaRef: string, source: Option<ValueSource>): Digest
  {
    DeclarationDigest(TrimSpace(schemaRef), Normalized(source))
  }

  /** No component of the address holds the separator. */
  predicate Separable(a: Address)
  {
    SEPARATOR !in a.objectId && SEPARATOR !in a.aspectName && SEPARATOR !in a.memberKey
  }

  const SCHEMA_PREFIX := "schema/"

  predicate IsSchemaObject(id: string)
  {
    SCHEMA_PREFIX <= id
  }

  /** For addresses without the separator the key identifies object, aspect and member. */
  lemma KeyIdentifies(a: Address, b: Address)
    requires Separable(a) && Separable(b)
    requires AddressKey(a) == AddressKey(b)
    ensures a.objectId == b.objectId && a.aspectName == b.aspectName && a.memberKey == b.memberKey
  {
    var x, y := a.aspectName + [SEPARATOR] + a.memberKey, b.aspectName + [SEPARATOR] + b.memberKey;
    assert AddressKey(a) == a.objectId + [SEPARATOR] + x;
    assert AddressKey(b) == b.objectId + [SEPARATOR] + y;
    Order.SplitUnique(SEPARATOR, a.objectId, b.objectId, x, y);
    Order.SplitUnique(SEPARATOR, a.aspectName, b.aspectName, a.memberKey, b.memberKey);
  }
}
