/**
 * The filtering serializer: a serializer that, on every representation pass,
 * records the instance being serialized, drops its cached field map, and
 * recomputes it as the framework's field map minus every field whose
 * permission check fails for the request and that instance.
 */
module Serializers {
  import opened Wrappers
  import opened Permissions
  import opened Fields

  // ---------------------------------------------------------------------------
  // The field map
  // ---------------------------------------------------------------------------

  /** A field of the serializer's field map. Framework fields that were not made
      permission-capable have no `check_permission`; the other three have one. */
  datatype BoundField =
    | PlainField(kind: string)
    | Guarded(field: PermissionField)
    | GuardedList(list: PermissionListSerializer)
    | GuardedRelated(related: PermissionManyRelatedField)
  {
    /** `hasattr(field, 'check_permission')` */
    predicate HasCheckPermission()
    {
      !PlainField?
    }

    /** `field.check_permission(request, obj)` */
    predicate CheckPermission(request: Request, obj: Option<Instance>)
      requires HasCheckPermission()
    {
      match this
      case Guarded(f) => f.CheckPermission(request, obj)
      case GuardedList(l) => l.CheckPermission(request, obj)
      case GuardedRelated(m) => m.CheckPermission(request, obj)
    }

    /** `field.permission_classes`: the field's own tuple, or for a wrapper the
        one it copied from its child. */
    function Permissions(): seq<Permission>
      requires HasCheckPermission()
    {
      match this
      case Guarded(f) => f.permissionClasses
      case GuardedList(l) => l.permissionClasses
      case GuardedRelated(m) => m.permissionClasses
    }

    /** The field survives filtering: it has no check, or passes it. */
    predicate Shown(request: Request, obj: Option<Instance>)
    {
      !HasCheckPermission() || CheckPermission(request, obj)
    }
  }

  /** Every permission-capable field, wrapper or not, decides by its
      `permission_classes`. */
  lemma CheckPermissionDecides(field: BoundField, request: Request, obj: Option<Instance>)
    requires field.HasCheckPermission()
    ensures field.CheckPermission(request, obj) <==> PermissionsAllow(field.Permissions(), request, obj)
  {
  }

  /** One name-to-field entry of an ordered field map. */
  datatype Entry = Entry(name: string, field: BoundField)

  /** An ordered field map, in field declaration order. */
  type FieldMap = seq<Entry>

  /** A field map is a dictionary: no name occurs twice. */
  predicate UniqueNames(fields: FieldMap)
  {
    forall i, j :: 0 <= i < j < |fields| ==> fields[i].name != fields[j].name
  }

  /** The names of a field map, in order. */
  function Names(fields: FieldMap): (names: seq<string>)
    ensures |names| == |fields|
    ensures forall i :: 0 <= i < |fields| ==> names[i] == fields[i].name
  {
    if fields == [] then [] else [fields[0].name] + Names(fields[1..])
  }

  /** `xs` is `ys` with some elements left out, the rest in their order. */
  predicate IsSubsequence<T(==)>(xs: seq<T>, ys: seq<T>)
    decreases |ys|
  {
    xs == [] ||
    (ys != [] && ((xs[0] == ys[0] && IsSubsequence(xs[1..], ys[1..])) || IsSubsequence(xs, ys[1..])))
  }

  // ---------------------------------------------------------------------------
  // What the filtered field map is
  // ---------------------------------------------------------------------------

  /** The fields the caller may see: those of `fields` that are shown, in their order. */
  function Permitted(fields: FieldMap, request: Request, obj: Option<Instance>): (r: FieldMap)
    ensures |r| <= |fields|
  {
    if fields == [] then []
    else (if fields[0].field.Shown(request, obj) then [fields[0]] else [])
         + Permitted(fields[1..], request, obj)
  }

  /** An entry is kept exactly when it is in the map and is shown; in particular
      a field without a check is always kept. */
  lemma {:induction false} PermittedMembers(fields: FieldMap, request: Request, obj: Option<Instance>, e: Entry)
    ensures e in Permitted(fields, request, obj) <==> e in fields && e.field.Shown(request, obj)
  {
    if fields != [] {
      PermittedMembers(fields[1..], request, obj, e);
      assert fields == [fields[0]] + fields[1..];
    }
  }

  /** The kept entries are in the map's own order. */
  lemma {:induction false} PermittedInOrder(fields: FieldMap, request: Request, obj: Option<Instance>)
    ensures IsSubsequence(Permitted(fields, request, obj), fields)
  {
    if fields != [] {
      PermittedInOrder(fields[1..], request, obj);
      var rest := Permitted(fields[1..], request, obj);
      if fields[0].field.Shown(request, obj) {
        assert ([fields[0]] + rest)[1..] == rest;
      } else {
        assert Permitted(fields, request, obj) == rest;
      }
    }
  }

  /** Filtering never duplicates a name. */
  lemma {:induction false} PermittedUnique(fields: FieldMap, request: Request, obj: Option<Instance>)
    requires UniqueNames(fields)
    ensures UniqueNames(Permitted(fields, request, obj))
  {
    if fields != [] {
      PermittedUnique(fields[1..], request, obj);
      var rest := Permitted(fields[1..], request, obj);
      forall e | e in rest ensures e.name != fields[0].name {
        PermittedMembers(fields[1..], request, obj, e);
        var k :| 0 <= k < |fields[1..]| && fields[1..][k] == e;
        assert fields[k + 1] == e;
      }
    }
  }

  /** Nothing is removed exactly when every field is shown; in particular a map
      none of whose fields has a check comes back unchanged. */
  lemma {:induction false} PermittedIdentity(fields: FieldMap, request: Request, obj: Option<Instance>)
    ensures Permitted(fields, request, obj) == fields <==>
            forall i :: 0 <= i < |fields| ==> fields[i].field.Shown(request, obj)
  {
    if fields != [] {
      PermittedIdentity(fields[1..], request, obj);
      assert forall i :: 1 <= i < |fields| ==> fields[i] == fields[1..][i - 1];
      if !fields[0].field.Shown(request, obj) {
        assert |Permitted(fields, request, obj)| < |fields|;
      }
    }
  }

  /** A name is in the names of a map exactly when some entry has it. */
  lemma NameInNames(fields: FieldMap, n: string)
    ensures n in Names(fields) <==> exists i :: 0 <= i < |fields| && fields[i].name == n
  {
    if n in Names(fields) {
      var i :| 0 <= i < |fields| && Names(fields)[i] == n;
      assert fields[i].name == n;
    }
  }

  /** The names of a concatenation are the names of its parts. */
  lemma {:induction false} NamesAppend(a: FieldMap, b: FieldMap)
    ensures Names(a + b) == Names(a) + Names(b)
  {
    if a != [] {
      assert (a + b)[1..] == a[1..] + b;
      NamesAppend(a[1..], b);
    }
  }

  /** No entry kept from a map has a name the map does not have. */
  lemma PermittedNoNewName(fields: FieldMap, request: Request, obj: Option<Instance>, n: string)
    requires n !in Names(fields)
    ensures n !in Names(Permitted(fields, request, obj))
  {
    var kept := Permitted(fields, request, obj);
    NameInNames(fields, n);
    forall i | 0 <= i < |kept| ensures kept[i].name != n {
      PermittedMembers(fields, request, obj, kept[i]);
    }
    NameInNames(kept, n);
  }

  /** In a dictionary a field's name is among the output names exactly when the
      field is shown. */
  lemma {:induction false} PermittedNames(fields: FieldMap, k: nat, request: Request, obj: Option<Instance>)
    requires UniqueNames(fields) && k < |fields|
    ensures fields[k].name in Names(Permitted(fields, request, obj)) <==> fields[k].field.Shown(request, obj)
  {
    var n := fields[k].name;
    var rest := fields[1..];
    var tail := Permitted(rest, request, obj);
    var head := if fields[0].field.Shown(request, obj) then [fields[0]] else [];
    assert Permitted(fields, request, obj) == head + tail;
    NamesAppend(head, tail);
    assert Names(head) == if head == [] then [] else [fields[0].name];
    if k == 0 {
      assert n !in Names(rest) by {
        forall i | 0 <= i < |rest| ensures Names(rest)[i] != n {
          assert rest[i] == fields[i + 1];
        }
      }
      PermittedNoNewName(rest, request, obj, n);
    } else {
      assert UniqueNames(rest);
      assert rest[k - 1] == fields[k];
      PermittedNames(rest, k - 1, request, obj);
      assert fields[0].name != n;
    }
  }

  /** A permission-capable field (plain, list or many-related) whose permissions
      include `AllowNone` is never shown, for any request and instance; one whose
      permissions are all `AllowAny` always is. In a dictionary the same holds of
      its name among the output names. */
  lemma AlwaysHiddenAlwaysShown(fields: FieldMap, k: nat, request: Request, obj: Option<Instance>)
    requires k < |fields| && fields[k].field.HasCheckPermission()
    ensures AllowNone in fields[k].field.Permissions() ==>
              fields[k] !in Permitted(fields, request, obj)
    ensures (forall p :: p in fields[k].field.Permissions() ==> p == AllowAny) ==>
              fields[k] in Permitted(fields, request, obj)
    ensures UniqueNames(fields) ==>
              (AllowNone in fields[k].field.Permissions() ==>
                 fields[k].name !in Names(Permitted(fields, request, obj))) &&
              ((forall p :: p in fields[k].field.Permissions() ==> p == AllowAny) ==>
                 fields[k].name in Names(Permitted(fields, request, obj)))
  {
    var ps := fields[k].field.Permissions();
    assert fields[k] in fields;
    PermittedMembers(fields, request, obj, fields[k]);
    PermissionsAllowEvery(ps, request, obj);
    CheckPermissionDecides(fields[k].field, request, obj);
    if AllowNone in ps {
      var i :| 0 <= i < |ps| && ps[i] == AllowNone;
      assert !Allows(ps[i], request, obj);
    }
    if forall p :: p in ps ==> p == AllowAny {
      forall i | 0 <= i < |ps| ensures Allows(ps[i], request, obj) {
        assert ps[i] in ps;
      }
    }
    if UniqueNames(fields) {
      PermittedNames(fields, k, request, obj);
    }
  }

  /** Before any instance is recorded only the request-level checks of a
      permission-capable field decide whether it, and in a dictionary its name,
      is kept. */
  lemma WithoutInstance(fields: FieldMap, k: nat, request: Request)
    requires k < |fields| && fields[k].field.HasCheckPermission()
    ensures var ps := fields[k].field.Permissions();
            fields[k] in Permitted(fields, request, None) <==>
            forall i :: 0 <= i < |ps| ==> HasPermission(ps[i], request)
    ensures var ps := fields[k].field.Permissions();
            UniqueNames(fields) ==>
              (fields[k].name in Names(Permitted(fields, request, None)) <==>
               forall i :: 0 <= i < |ps| ==> HasPermission(ps[i], request))
  {
    PermittedMembers(fields, request, None, fields[k]);
    CheckPermissionDecides(fields[k].field, request, None);
    PermissionsAllowWithoutObject(fields[k].field.Permissions(), request);
    if UniqueNames(fields) {
      PermittedNames(fields, k, request, None);
    }
  }

  /** An `IsAuthenticated` field is kept for an authenticated user and dropped
      for an anonymous one. */
  lemma AuthenticationDecides(fields: FieldMap, k: nat, user: User, obj: Option<Instance>)
    requires k < |fields| && fields[k].field.HasCheckPermission()
    requires fields[k].field.Permissions() == [IsAuthenticated]
    ensures fields[k] in Permitted(fields, Request(user), obj) <==> user.isAuthenticated
  {
    PermittedMembers(fields, Request(user), obj, fields[k]);
    CheckPermissionDecides(fields[k].field, Request(user), obj);
    PermissionsAllowEvery([IsAuthenticated], Request(user), obj);
  }

  /** The same field map filtered for two instances in turn: an `IsArtist` field
      is kept for the requesting artist's album and dropped for another's. */
  lemma InstanceDecides(fields: FieldMap, k: nat, user: User, other: string)
    requires k < |fields| && fields[k].field.HasCheckPermission()
    requires fields[k].field.Permissions() == [IsArtist]
    requires other != user.username
    ensures fields[k] in Permitted(fields, Request(user), Some(Instance(user.username)))
    ensures fields[k] !in Permitted(fields, Request(user), Some(Instance(other)))
  {
    PermittedMembers(fields, Request(user), Some(Instance(user.username)), fields[k]);
    PermittedMembers(fields, Request(user), Some(Instance(other)), fields[k]);
    CheckPermissionDecides(fields[k].field, Request(user), Some(Instance(user.username)));
    CheckPermissionDecides(fields[k].field, Request(user), Some(Instance(other)));
    PermissionsAllowEvery([IsArtist], Request(user), Some(Instance(user.username)));
    PermissionsAllowEvery([IsArtist], Request(user), Some(Instance(other)));
  }

  /** A map of an unchecked `name`, a denied `email` and an allowed `ssn` comes
      back as `name`, `ssn`, in that order. */
  lemma NameEmailSsn(email: PermissionField, ssn: PermissionField, request: Request, obj: Option<Instance>)
    requires email.permissionClasses == [AllowNone] && ssn.permissionClasses == [AllowAny]
    ensures var fields := [Entry("name", PlainField("CharField")), Entry("email", Guarded(email)),
                           Entry("ssn", Guarded(ssn))];
            Names(Permitted(fields, request, obj)) == ["name", "ssn"]
  {
    PermissionsAllowEvery([AllowNone], request, obj);
    PermissionsAllowEvery([AllowAny], request, obj);
    var fields := [Entry("name", PlainField("CharField")), Entry("email", Guarded(email)),
                   Entry("ssn", Guarded(ssn))];
    assert !fields[1].field.Shown(request, obj);
    assert fields[2].field.Shown(request, obj);
    assert Permitted(fields[2..], request, obj) == [fields[2]];
    assert Permitted(fields[1..], request, obj) == [fields[2]];
    assert Permitted(fields, request, obj) == [fields[0], fields[2]];
  }

  // ---------------------------------------------------------------------------
  // How the filter computes it: collect the forbidden names, then pop each
  // ---------------------------------------------------------------------------

  /** The names of the entries that have a check and fail it, in map order. */
  function ForbiddenNames(fields: FieldMap, request: Request, obj: Option<Instance>): (names: seq<string>)
    ensures |names| <= |fields|
  {
    if fields == [] then []
    else
      var last := fields[|fields| - 1];
      ForbiddenNames(fields[..|fields| - 1], request, obj) +
      (if last.field.Shown(request, obj) then [] else [last.name])
  }

  /** No name occurs twice in `names`. */
  predicate Distinct(names: seq<string>)
  {
    forall i, j :: 0 <= i < j < |names| ==> names[i] != names[j]
  }

  /** The names of a prefix are names of the whole map. */
  lemma NamesOfPrefix(fields: FieldMap, m: nat, n: string)
    requires m <= |fields| && n in Names(fields[..m])
    ensures n in Names(fields)
  {
    var i :| 0 <= i < m && Names(fields[..m])[i] == n;
    assert Names(fields)[i] == n;
  }

  /** In a dictionary, the last name is not a name of the rest. */
  lemma LastNameFresh(fields: FieldMap)
    requires UniqueNames(fields) && fields != []
    ensures fields[|fields| - 1].name !in Names(fields[..|fields| - 1])
  {
    var init := fields[..|fields| - 1];
    forall i | 0 <= i < |init| ensures Names(init)[i] != fields[|fields| - 1].name {
      assert init[i] == fields[i];
    }
  }

  /** Forbidden names are names of the map. */
  lemma {:induction false} ForbiddenInMap(fields: FieldMap, request: Request, obj: Option<Instance>)
    ensures forall n :: n in ForbiddenNames(fields, request, obj) ==> n in Names(fields)
  {
    if fields != [] {
      var m := |fields| - 1;
      ForbiddenInMap(fields[..m], request, obj);
      forall n | n in ForbiddenNames(fields, request, obj) ensures n in Names(fields) {
        if n in ForbiddenNames(fields[..m], request, obj) {
          NamesOfPrefix(fields, m, n);
        } else {
          assert Names(fields)[m] == n;
        }
      }
    }
  }

  /** In a dictionary each forbidden name is listed once. */
  lemma {:induction false} ForbiddenDistinct(fields: FieldMap, request: Request, obj: Option<Instance>)
    requires UniqueNames(fields)
    ensures Distinct(ForbiddenNames(fields, request, obj))
  {
    if fields != [] {
      var m := |fields| - 1;
      assert UniqueNames(fields[..m]);
      ForbiddenDistinct(fields[..m], request, obj);
      ForbiddenInMap(fields[..m], request, obj);
      LastNameFresh(fields);
    }
  }

  /** In a dictionary a name is forbidden exactly when its field is not shown. */
  lemma {:induction false} ForbiddenExact(fields: FieldMap, request: Request, obj: Option<Instance>)
    requires UniqueNames(fields)
    ensures forall k :: 0 <= k < |fields| ==>
              (fields[k].name in ForbiddenNames(fields, request, obj) <==> !fields[k].field.Shown(request, obj))
  {
    if fields != [] {
      var m := |fields| - 1;
      var init := fields[..m];
      var last := fields[m];
      assert UniqueNames(init);
      ForbiddenExact(init, request, obj);
      ForbiddenInMap(init, request, obj);
      LastNameFresh(fields);
      var tail := if last.field.Shown(request, obj) then [] else [last.name];
      assert ForbiddenNames(fields, request, obj) == ForbiddenNames(init, request, obj) + tail;
      forall k | 0 <= k < |fields|
        ensures fields[k].name in ForbiddenNames(fields, request, obj) <==> !fields[k].field.Shown(request, obj)
      {
        if k < m {
          assert init[k] == fields[k];
          assert fields[k].name != last.name;
        }
      }
    }
  }

  /** `fields` without the entries whose name is in `names`. */
  function Omit(fields: FieldMap, names: seq<string>): FieldMap
  {
    if fields == [] then []
    else (if fields[0].name in names then [] else [fields[0]]) + Omit(fields[1..], names)
  }

  /** `ret.pop(name)` on a map that has the name. */
  function Pop(fields: FieldMap, name: string): (r: FieldMap)
    requires name in Names(fields)
    ensures |r| == |fields| - 1
  {
    if fields[0].name == name then fields[1..] else [fields[0]] + Pop(fields[1..], name)
  }

  /** Omitting a name the map does not have changes nothing. */
  lemma {:induction false} OmitAbsent(fields: FieldMap, names: seq<string>, n: string)
    requires n !in Names(fields)
    ensures Omit(fields, names + [n]) == Omit(fields, names)
  {
    if fields != [] {
      assert Names(fields)[0] == fields[0].name;
      assert Names(fields[1..]) == Names(fields)[1..];
      OmitAbsent(fields[1..], names, n);
    }
  }

  /** A name of the map that is not omitted is still there to pop. */
  lemma {:induction false} OmitKeepsName(fields: FieldMap, names: seq<string>, n: string)
    requires n in Names(fields) && n !in names
    ensures n in Names(Omit(fields, names))
  {
    var rest := fields[1..];
    if fields[0].name != n {
      assert Names(fields) == [fields[0].name] + Names(rest);
      OmitKeepsName(rest, names, n);
      var tail := Omit(rest, names);
      var head := if fields[0].name in names then [] else [fields[0]];
      assert Omit(fields, names) == head + tail;
      var i :| 0 <= i < |tail| && Names(tail)[i] == n;
      assert Names(head + tail)[|head| + i] == n;
    } else {
      assert Names(Omit(fields, names))[0] == n;
    }
  }

  /** Popping a name that is still there removes one more entry. */
  lemma {:induction false} PopOmit(fields: FieldMap, names: seq<string>, n: string)
    requires UniqueNames(fields) && n in Names(fields) && n !in names
    requires n in Names(Omit(fields, names))
    ensures Pop(Omit(fields, names), n) == Omit(fields, names + [n])
  {
    var first, rest := fields[0], fields[1..];
    var more := names + [n];
    assert Names(fields) == [first.name] + Names(rest);
    if first.name == n {
      assert n !in Names(rest) by {
        forall i | 0 <= i < |rest| ensures Names(rest)[i] != n {
          assert fields[i + 1].name != fields[0].name;
        }
      }
      OmitAbsent(rest, names, n);
      assert Omit(fields, names) == [first] + Omit(rest, names);
      assert Omit(fields, more) == Omit(rest, more);
    } else {
      assert UniqueNames(rest);
      OmitKeepsName(rest, names, n);
      PopOmit(rest, names, n);
      if first.name in names {
        assert Omit(fields, names) == Omit(rest, names);
        assert Omit(fields, more) == Omit(rest, more);
      } else {
        assert first.name !in more;
        assert Omit(fields, names) == [first] + Omit(rest, names);
        assert Omit(fields, more) == [first] + Omit(rest, more);
        assert Pop([first] + Omit(rest, names), n) == [first] + Pop(Omit(rest, names), n);
      }
    }
  }

  /** One step of the pop loop: the next distinct name of the map is still
      there, and popping it omits one more name. */
  lemma PopNext(fields: FieldMap, names: seq<string>, j: nat)
    requires UniqueNames(fields) && Distinct(names) && j < |names|
    requires forall n :: n in names ==> n in Names(fields)
    ensures names[j] in Names(Omit(fields, names[..j]))
    ensures Pop(Omit(fields, names[..j]), names[j]) == Omit(fields, names[..j + 1])
  {
    assert names[j] in names;
    assert names[j] !in names[..j];
    OmitKeepsName(fields, names[..j], names[j]);
    PopOmit(fields, names[..j], names[j]);
    assert names[..j + 1] == names[..j] + [names[j]];
  }

  /** Omitting exactly the names of the entries that are not shown leaves the permitted map. */
  lemma {:induction false} OmitPermitted(fields: FieldMap, names: seq<string>, request: Request, obj: Option<Instance>)
    requires forall k :: 0 <= k < |fields| ==> (fields[k].name in names <==> !fields[k].field.Shown(request, obj))
    ensures Omit(fields, names) == Permitted(fields, request, obj)
  {
    if fields != [] {
      assert forall k :: 1 <= k < |fields| ==> fields[1..][k - 1] == fields[k];
      OmitPermitted(fields[1..], names, request, obj);
    }
  }

  /** Raised when the serializer has no request in its context. */
  datatype Error = RequestNotAvailable

  /** The list comprehension of the `fields` property: the names of the fields
      that have a check and fail it, in map order. */
  method CollectForbidden(base: FieldMap, request: Request, instance: Option<Instance>)
    returns (forbidden: seq<string>)
    ensures forbidden == ForbiddenNames(base, request, instance)
  {
    forbidden := [];
    var i := 0;
    while i < |base|
      invariant 0 <= i <= |base|
      invariant forbidden == ForbiddenNames(base[..i], request, instance)
    {
      assert base[..i + 1][..i] == base[..i];
      if !base[i].field.Shown(request, instance) {
        forbidden := forbidden + [base[i].name];
      }
      i := i + 1;
    }
    assert base[..i] == base;
  }

  /** The pop loop of the `fields` property: each name, distinct and a name of
      the dictionary, is popped in turn, leaving the map without them. */
  method PopAll(base: FieldMap, names: seq<string>) returns (ret: FieldMap)
    requires UniqueNames(base) && Distinct(names)
    requires forall n :: n in names ==> n in Names(base)
    ensures ret == Omit(base, names)
  {
    ret := base;
    var j := 0;
    OmitNothing(base);
    while j < |names|
      invariant 0 <= j <= |names|
      invariant ret == Omit(base, names[..j])
    {
      PopNext(base, names, j);
      ret := Pop(ret, names[j]);
      j := j + 1;
    }
    assert names[..j] == names;
  }

  /** The body of the `fields` property: fail without a request; otherwise list
      the names of the fields that have a check and fail it, then pop each of
      them from the map. */
  method ScrubFields(base: FieldMap, request: Option<Request>, instance: Option<Instance>)
    returns (r: Result<FieldMap, Error>)
    requires UniqueNames(base)
    ensures r.Err? <==> request.None?
    ensures r.Err? ==> r.error == RequestNotAvailable
    ensures r.Ok? ==> r.value == Permitted(base, request.value, instance)
  {
    if request.None? {
      return Err(RequestNotAvailable);
    }
    var req := request.value;
    var forbidden := CollectForbidden(base, req, instance);
    ForbiddenInMap(base, req, instance);
    ForbiddenDistinct(base, req, instance);
    var ret := PopAll(base, forbidden);
    ForbiddenExact(base, req, instance);
    OmitPermitted(base, forbidden, req, instance);
    r := Ok(ret);
  }

  /** Omitting no names keeps the whole map. */
  lemma {:induction false} OmitNothing(fields: FieldMap)
    ensures Omit(fields, []) == fields
  {
    if fields != [] {
      OmitNothing(fields[1..]);
    }
  }

  // ---------------------------------------------------------------------------
  // The serializer
  // ---------------------------------------------------------------------------

  /** A serializer with per-field permission filtering. */
  class FieldPermissionSerializer {
    /** The field map the framework's own `fields` property yields. */
    const declaredFields: FieldMap
    /** `self.context['request']`. */
    const request: Option<Request>
    /** The instance of the representation pass under way, if any. */
    var currentInstance: Option<Instance>
    /** The cached value of the `fields` property, if computed and not invalidated. */
    var cachedFields: Option<FieldMap>

    /** The cache always holds the map filtered for the current instance: a result
        computed for one instance is never seen by a pass over another. */
    ghost predicate Valid()
      reads this
    {
      UniqueNames(declaredFields) &&
      (cachedFields.Some? ==>
         request.Some? && cachedFields.value == Permitted(declaredFields, request.value, currentInstance))
    }

    constructor (declaredFields: FieldMap, request: Option<Request>)
      requires UniqueNames(declaredFields)
      ensures Valid()
      ensures this.declaredFields == declaredFields && this.request == request
      ensures currentInstance == None && cachedFields == None
    {
      this.declaredFields := declaredFields;
      this.request := request;
      currentInstance := None;
      cachedFields := None;
    }

    /** `del self.fields`, ignoring the error raised when nothing is cached.
        Whatever the current instance, the invariant holds afterwards. */
    method InvalidateFields()
      requires UniqueNames(declaredFields)
      modifies this
      ensures Valid()
      ensures cachedFields == None && currentInstance == old(currentInstance)
      ensures old(cachedFields) == None ==> unchanged(this)
    {
      cachedFields := None;
    }

    /** Reading the `fields` property: the cached map if there is one, otherwise
        the freshly filtered map, which is then cached. */
    method Fields() returns (r: Result<FieldMap, Error>)
      requires Valid()
      modifies this
      ensures Valid()
      ensures currentInstance == old(currentInstance)
      ensures r.Err? <==> request.None?
      ensures r.Err? ==> r == Err(RequestNotAvailable)
      ensures r.Ok? ==> r.value == Permitted(declaredFields, request.value, currentInstance)
      ensures r.Ok? ==> cachedFields == Some(r.value)
      ensures r.Err? ==> cachedFields == old(cachedFields)
      ensures old(cachedFields).Some? ==> r == Ok(old(cachedFields).value) && unchanged(this)
    {
      if cachedFields.Some? {
        return Ok(cachedFields.value);
      }
      r := ScrubFields(declaredFields, request, currentInstance);
      if r.Ok? {
        cachedFields := Some(r.value);
      }
    }

    /** Reading the `fields` property as the code is written. The framework's own
        `fields` property, read first, caches the unfiltered map under the same
        name before the request is checked. So a read without a request fails
        but leaves the unfiltered map cached, the invariant is lost, and the next
        read returns that map. */
    method FieldsAsWritten() returns (r: Result<FieldMap, Error>)
      requires UniqueNames(declaredFields)
      modifies this
      ensures currentInstance == old(currentInstance)
      ensures old(cachedFields).Some? ==> r == Ok(old(cachedFields).value) && unchanged(this)
      ensures old(cachedFields).None? ==> (r.Err? <==> request.None?)
      ensures old(cachedFields).None? && request.None? ==>
                r == Err(RequestNotAvailable) && cachedFields == Some(declaredFields) && !Valid()
      ensures old(cachedFields).None? && request.Some? ==>
                r == Ok(Permitted(declaredFields, request.value, currentInstance)) && cachedFields == Some(r.value) &&
                Valid()
    {
      if cachedFields.Some? {
        return Ok(cachedFields.value);
      }
      cachedFields := Some(declaredFields);
      r := ScrubFields(declaredFields, request, currentInstance);
      if r.Ok? {
        cachedFields := Some(r.value);
      }
    }

    /** `to_representation(instance)`: record the instance, invalidate the cache,
        and read the fields the framework then serializes. The result is the
        names of those fields, in output order. */
    method ToRepresentation(instance: Instance) returns (r: Result<seq<string>, Error>)
      requires Valid()
      modifies this
      ensures Valid()
      ensures currentInstance == Some(instance)
      ensures r.Err? <==> request.None?
      ensures r.Err? ==> r == Err(RequestNotAvailable)
      ensures r.Ok? ==> r.value == Names(Permitted(declaredFields, request.value, Some(instance)))
      ensures cachedFields == if request.Some? then Some(Permitted(declaredFields, request.value, Some(instance)))
                              else None
    {
      currentInstance := Some(instance);
      InvalidateFields();
      var fields := Fields();
      match fields
      case Ok(f) => r := Ok(Names(f));
      case Err(e) => r := Err(e);
    }
  }

  /** The object-permission scenario: one serializer, two albums in turn. The
      diary is shown for the requesting artist's album and hidden for the other,
      although the first pass left a cached map behind. */
  method TwoAlbumsInTurn()
  {
    var diary := new PermissionField(map[PERMISSION_CLASSES := PermissionClasses([IsArtist])]);
    var album := [Entry("album_name", PlainField("CharField")), Entry("artist", PlainField("CharField")),
                  Entry("diary", Guarded(diary))];
    var request := Request(User(true, "Album Artist"));
    var mine, theirs := Instance("Album Artist"), Instance("Other Album Artist");
    var serializer := new FieldPermissionSerializer(album, Some(request));
    PermissionsAllowEvery([IsArtist], request, Some(mine));
    PermissionsAllowEvery([IsArtist], request, Some(theirs));
    assert Permitted(album[2..], request, Some(mine)) == album[2..];
    assert Permitted(album[1..], request, Some(mine)) == album[1..];
    assert Permitted(album, request, Some(mine)) == album;
    assert Permitted(album[2..], request, Some(theirs)) == [];
    assert Permitted(album[1..], request, Some(theirs)) == album[1..2];
    assert Permitted(album, request, Some(theirs)) == album[..2];
    assert Names(album) == ["album_name", "artist", "diary"];
    assert Names(album[..2]) == ["album_name", "artist"];
    var first := serializer.ToRepresentation(mine);
    assert first == Ok(["album_name", "artist", "diary"]);
    var again := serializer.Fields();
    assert again.Ok? && Names(again.value) == ["album_name", "artist", "diary"];
    var second := serializer.ToRepresentation(theirs);
    assert second == Ok(["album_name", "artist"]);
  }

  /** Without a request in the context, reading the fields fails, and reading
      them again fails again: no map at all is returned. */
  method MissingRequest() returns (first: Result<FieldMap, Error>, second: Result<FieldMap, Error>)
    ensures first == Err(RequestNotAvailable) && second == Err(RequestNotAvailable)
  {
    var ssn := new PermissionField(map[PERMISSION_CLASSES := PermissionClasses([AllowNone])]);
    var serializer := new FieldPermissionSerializer([Entry("name", PlainField("CharField")), Entry("ssn", Guarded(ssn))],
                                                    None);
    first := serializer.Fields();
    second := serializer.Fields();
  }

  /** The same scenario as the code is written: the first read fails, and the
      second returns the unfiltered map, with a field that no request may see. */
  method LeakAfterMissingRequest() returns (ssn: PermissionField, first: Result<FieldMap, Error>,
                                            second: Result<FieldMap, Error>)
    ensures ssn.permissionClasses == [AllowNone]
    ensures first == Err(RequestNotAvailable)
    ensures second.Ok? && Entry("ssn", Guarded(ssn)) in second.value
  {
    ssn := new PermissionField(map[PERMISSION_CLASSES := PermissionClasses([AllowNone])]);
    var fields := [Entry("name", PlainField("CharField")), Entry("ssn", Guarded(ssn))];
    var serializer := new FieldPermissionSerializer(fields, None);
    first := serializer.FieldsAsWritten();
    second := serializer.FieldsAsWritten();
    assert fields[1] in second.value;
  }
}
