/**
 * Permission-capable serializer fields: the permission decision a field makes,
 * the generic field that carries a tuple of permissions, and the two wrappers
 * (`many=True` lists of serializers and of related fields) that decide exactly
 * as the field they wrap.
 */
module Fields {
  import opened Wrappers
  import opened Permissions

  // ---------------------------------------------------------------------------
  // The permission decision
  // ---------------------------------------------------------------------------

  /** One conjunct of the decision: the request-level check and, only when an
      object is present, the object-level check. */
  predicate Allows(p: Permission, request: Request, obj: Option<Instance>)
  {
    HasPermission(p, request) && (obj.None? || HasObjectPermission(p, request, obj.value))
  }

  /** The decision of `check_permission` over an ordered tuple of permissions:
      `all` of the conjuncts, left to right. */
  predicate PermissionsAllow(permissions: seq<Permission>, request: Request, obj: Option<Instance>)
  {
    permissions == [] ||
    (Allows(permissions[0], request, obj) && PermissionsAllow(permissions[1..], request, obj))
  }

  /** The decision holds exactly when every permission allows. */
  lemma {:induction false} PermissionsAllowEvery(permissions: seq<Permission>, request: Request, obj: Option<Instance>)
    ensures PermissionsAllow(permissions, request, obj) <==>
            forall i :: 0 <= i < |permissions| ==> Allows(permissions[i], request, obj)
  {
    if permissions != [] {
      PermissionsAllowEvery(permissions[1..], request, obj);
      assert forall i :: 1 <= i < |permissions| ==> permissions[i] == permissions[1..][i - 1];
    }
  }

  /** An empty tuple allows every request and every object. */
  lemma PermissionsAllowEmpty(request: Request, obj: Option<Instance>)
    ensures PermissionsAllow([], request, obj)
  {
  }

  /** Two permissions: the decision is their conjunction, in all four combinations. */
  lemma PermissionsAllowPair(p: Permission, q: Permission, request: Request, obj: Option<Instance>)
    ensures PermissionsAllow([p, q], request, obj) <==> Allows(p, request, obj) && Allows(q, request, obj)
  {
    PermissionsAllowEvery([p, q], request, obj);
  }

  /** The order of the permissions does not matter: any rearrangement decides alike. */
  lemma PermissionsAllowReordered(ps: seq<Permission>, qs: seq<Permission>, request: Request, obj: Option<Instance>)
    requires multiset(ps) == multiset(qs)
    ensures PermissionsAllow(ps, request, obj) <==> PermissionsAllow(qs, request, obj)
  {
    PermissionsAllowEvery(ps, request, obj);
    PermissionsAllowEvery(qs, request, obj);
    forall i | 0 <= i < |qs| ensures qs[i] in ps {
      assert qs[i] in multiset(qs);
    }
    forall i | 0 <= i < |ps| ensures ps[i] in qs {
      assert ps[i] in multiset(ps);
    }
  }

  /** Without an object only the request-level checks decide. */
  lemma PermissionsAllowWithoutObject(permissions: seq<Permission>, request: Request)
    ensures PermissionsAllow(permissions, request, None) <==>
            forall i :: 0 <= i < |permissions| ==> HasPermission(permissions[i], request)
  {
    PermissionsAllowEvery(permissions, request, None);
  }

  /** A permission whose request-level check fails denies, whatever the object. */
  lemma PermissionsDeniedByRequest(permissions: seq<Permission>, k: nat, request: Request, obj: Option<Instance>)
    requires k < |permissions| && !HasPermission(permissions[k], request)
    ensures !PermissionsAllow(permissions, request, obj)
  {
    PermissionsAllowEvery(permissions, request, obj);
    assert !Allows(permissions[k], request, obj);
  }

  /** The examples of the field tests, each a tuple of permissions checked without an object. */
  lemma FieldPermissionExamples(request: Request)
    ensures PermissionsAllow([AllowAny], request, None)
    ensures !PermissionsAllow([AllowNone], request, None)
    ensures PermissionsAllow([IsAuthenticated], request, None) <==> request.user.isAuthenticated
    ensures !PermissionsAllow([AllowAny, AllowNone], request, None)
    ensures !PermissionsAllow([AllowNone, AllowAny], request, None)
    ensures !PermissionsAllow([AllowNone, AllowNone], request, None)
    ensures PermissionsAllow([AllowAny, AllowAny], request, None)
  {
    PermissionsAllowPair(AllowAny, AllowNone, request, None);
    PermissionsAllowPair(AllowNone, AllowAny, request, None);
    PermissionsAllowPair(AllowNone, AllowNone, request, None);
    PermissionsAllowPair(AllowAny, AllowAny, request, None);
  }

  // ---------------------------------------------------------------------------
  // Which checks the decision consults
  // ---------------------------------------------------------------------------

  /** A call the decision makes on the permission at `index`. */
  datatype Call = HasPermissionCall(index: nat) | HasObjectPermissionCall(index: nat)

  /** The calls evaluating the decision makes, in order, from position `from` on:
      `and` skips its right operand when the left is false, `not obj or …`
      skips the object check when there is no object, and `all` stops at the
      first false conjunct. */
  function Consulted(permissions: seq<Permission>, request: Request, obj: Option<Instance>, from: nat): seq<Call>
    decreases |permissions| - from
  {
    if from >= |permissions| then []
    else if !HasPermission(permissions[from], request) then [HasPermissionCall(from)]
    else if obj.None? then [HasPermissionCall(from)] + Consulted(permissions, request, obj, from + 1)
    else if !HasObjectPermission(permissions[from], request, obj.value) then
      [HasPermissionCall(from), HasObjectPermissionCall(from)]
    else [HasPermissionCall(from), HasObjectPermissionCall(from)] + Consulted(permissions, request, obj, from + 1)
  }

  /** Without an object, `has_object_permission` is never called. */
  lemma {:induction false} ConsultedWithoutObject(permissions: seq<Permission>, request: Request, from: nat)
    ensures forall c :: c in Consulted(permissions, request, None, from) ==> c.HasPermissionCall?
    decreases |permissions| - from
  {
    if from < |permissions| && HasPermission(permissions[from], request) {
      ConsultedWithoutObject(permissions, request, from + 1);
    }
  }

  /** Once a request-level check fails, nothing after it is called, and not
      that permission's object check either. */
  lemma {:induction false} ConsultedUntilDenied(permissions: seq<Permission>, request: Request, obj: Option<Instance>, from: nat, k: nat)
    requires from <= k < |permissions| && !HasPermission(permissions[k], request)
    ensures forall c :: c in Consulted(permissions, request, obj, from) ==> c.index <= k
    ensures HasObjectPermissionCall(k) !in Consulted(permissions, request, obj, from)
    decreases |permissions| - from
  {
    if from < k && HasPermission(permissions[from], request)
       && (obj.None? || HasObjectPermission(permissions[from], request, obj.value))
    {
      ConsultedUntilDenied(permissions, request, obj, from + 1, k);
    }
  }

  /** Call `c` names a permission of the tuple and returns true. */
  predicate ReturnsTrue(permissions: seq<Permission>, request: Request, obj: Option<Instance>, c: Call)
  {
    c.index < |permissions| &&
    match c
    case HasPermissionCall(i) => HasPermission(permissions[i], request)
    case HasObjectPermissionCall(i) => obj.Some? && HasObjectPermission(permissions[i], request, obj.value)
  }

  /** The calls are all there is to the decision: it holds exactly when every
      call the evaluation makes returns true. */
  lemma {:induction false} ConsultedDecides(permissions: seq<Permission>, request: Request, obj: Option<Instance>, from: nat)
    requires from <= |permissions|
    ensures PermissionsAllow(permissions[from..], request, obj) <==>
            forall c :: c in Consulted(permissions, request, obj, from) ==> ReturnsTrue(permissions, request, obj, c)
    decreases |permissions| - from
  {
    if from < |permissions| {
      assert permissions[from..][1..] == permissions[from + 1..];
      ConsultedDecides(permissions, request, obj, from + 1);
      var rest := Consulted(permissions, request, obj, from + 1);
      var p := permissions[from];
      if !HasPermission(p, request) {
        assert !ReturnsTrue(permissions, request, obj, HasPermissionCall(from));
      } else if obj.None? {
        assert forall c :: c in [HasPermissionCall(from)] + rest <==> c == HasPermissionCall(from) || c in rest;
      } else if !HasObjectPermission(p, request, obj.value) {
        assert !ReturnsTrue(permissions, request, obj, HasObjectPermissionCall(from));
      } else {
        var head := [HasPermissionCall(from), HasObjectPermissionCall(from)];
        assert forall c :: c in head + rest <==> c in head || c in rest;
      }
    }
  }

  // ---------------------------------------------------------------------------
  // Keyword arguments
  // ---------------------------------------------------------------------------

  /** A keyword argument's value, as far as these fields look at it. */
  datatype Arg =
    | PermissionClasses(classes: seq<Permission>)
    | ChildField(field: PermissionField)
    | Flag(flag: bool)
    | Text(text: string)

  /** Keyword arguments, by name. */
  type Kwargs = map<string, Arg>

  const PERMISSION_CLASSES := "permission_classes"
  const CHILD := "child"
  const CHILD_RELATION := "child_relation"
  const ALLOW_EMPTY := "allow_empty"

  /** The keyword arguments a list serializer accepts, as the framework defines them. */
  const LIST_SERIALIZER_KWARGS: set<string> :=
    {"read_only", "write_only", "required", "default", "initial", "source",
     "label", "help_text", "style", "error_messages", "allow_empty",
     "instance", "data", "partial", "context", "allow_null",
     "max_length", "min_length"}

  /** The keyword arguments a many-related field accepts, as the framework defines them. */
  const MANY_RELATION_KWARGS: set<string> :=
    {"read_only", "write_only", "required", "default", "initial", "source",
     "label", "help_text", "style", "error_messages", "allow_empty",
     "html_cutoff", "html_cutoff_text"}

  /** `permission_classes`, when given, must be a tuple of permission objects. */
  predicate PermissionClassesWellFormed(kwargs: Kwargs)
  {
    PERMISSION_CLASSES in kwargs ==> kwargs[PERMISSION_CLASSES].PermissionClasses?
  }

  /** The permission tuple a field is built with: `kwargs.pop("permission_classes", ())`. */
  function PermissionClassesOf(kwargs: Kwargs): seq<Permission>
    requires PermissionClassesWellFormed(kwargs)
  {
    if PERMISSION_CLASSES in kwargs then kwargs[PERMISSION_CLASSES].classes else []
  }

  /** The entries of `kwargs` whose key is allowed, values unchanged. */
  function Restrict(kwargs: Kwargs, allowed: set<string>): (r: Kwargs)
    ensures r.Keys == kwargs.Keys * allowed
    ensures forall key :: key in r ==> r[key] == kwargs[key]
  {
    map key | key in kwargs && key in allowed :: kwargs[key]
  }

  /** The loop of the many-related `many_init`: every entry of `kwargs` whose
      key is allowed is written into `into`, overriding what was there. */
  method CopyAllowed(into: Kwargs, kwargs: Kwargs, allowed: set<string>) returns (r: Kwargs)
    ensures r.Keys == into.Keys + kwargs.Keys * allowed
    ensures forall key :: key in r ==>
              r[key] == if key in kwargs && key in allowed then kwargs[key] else into[key]
    ensures r == into + Restrict(kwargs, allowed)
  {
    r := into;
    var todo := kwargs.Keys;
    while todo != {}
      invariant todo <= kwargs.Keys
      invariant r.Keys == into.Keys + (kwargs.Keys - todo) * allowed
      invariant forall key :: key in r ==>
                  r[key] == if key in kwargs && key !in todo && key in allowed then kwargs[key] else into[key]
      decreases todo
    {
      var key :| key in todo;
      if key in allowed {
        r := r[key := kwargs[key]];
      }
      todo := todo - {key};
    }
  }

  // ---------------------------------------------------------------------------
  // Fields
  // ---------------------------------------------------------------------------

  /** A framework field made permission-capable. Its permissions are fixed when it is built. */
  class PermissionField {
    /** The ordered tuple of permission objects. */
    const permissionClasses: seq<Permission>
    /** What is passed on to the framework's own field constructor. */
    const fieldKwargs: Kwargs

    constructor (kwargs: Kwargs)
      requires PermissionClassesWellFormed(kwargs)
      ensures permissionClasses == PermissionClassesOf(kwargs)
      ensures fieldKwargs == kwargs - {PERMISSION_CLASSES}
      ensures PERMISSION_CLASSES !in kwargs ==>
                permissionClasses == [] && forall request, obj :: CheckPermission(request, obj)
    {
      permissionClasses := if PERMISSION_CLASSES in kwargs then kwargs[PERMISSION_CLASSES].classes else [];
      fieldKwargs := kwargs - {PERMISSION_CLASSES};
    }

    /** Whether this field may be shown for `request` and, when present, `obj`. */
    predicate CheckPermission(request: Request, obj: Option<Instance>)
    {
      PermissionsAllow(permissionClasses, request, obj)
    }
  }

  /** The list serializer a permission-capable serializer becomes with `many=True`. */
  class PermissionListSerializer {
    const child: PermissionField
    /** Copied from the child when the wrapper is built, so always the child's. */
    const permissionClasses: seq<Permission> := child.permissionClasses
    const allowEmpty: Arg
    /** What is passed on to the framework's base serializer constructor. */
    const baseKwargs: Kwargs

    constructor (kwargs: Kwargs)
      requires CHILD in kwargs && kwargs[CHILD].ChildField?
      ensures child == kwargs[CHILD].field
      ensures permissionClasses == child.permissionClasses
      ensures allowEmpty == if ALLOW_EMPTY in kwargs then kwargs[ALLOW_EMPTY] else Flag(true)
      ensures baseKwargs == kwargs - {CHILD, ALLOW_EMPTY}
    {
      child := kwargs[CHILD].field;
      allowEmpty := if ALLOW_EMPTY in kwargs then kwargs[ALLOW_EMPTY] else Flag(true);
      baseKwargs := kwargs - {CHILD, ALLOW_EMPTY};
    }

    /** The child's own `check_permission`. */
    predicate CheckPermission(request: Request, obj: Option<Instance>)
    {
      child.CheckPermission(request, obj)
    }
  }

  /** The many-related field a permission-capable related field becomes with `many=True`. */
  class PermissionManyRelatedField {
    const childRelation: PermissionField
    /** Copied from the child relation when the wrapper is built, so always the child relation's. */
    const permissionClasses: seq<Permission> := childRelation.permissionClasses
    /** The rest of the arguments, kept by the framework's many-related field. */
    const relatedKwargs: Kwargs

    constructor (kwargs: Kwargs)
      requires CHILD_RELATION in kwargs && kwargs[CHILD_RELATION].ChildField?
      ensures childRelation == kwargs[CHILD_RELATION].field
      ensures permissionClasses == childRelation.permissionClasses
      ensures relatedKwargs == kwargs - {CHILD_RELATION}
    {
      childRelation := kwargs[CHILD_RELATION].field;
      relatedKwargs := kwargs - {CHILD_RELATION};
    }

    /** The child relation's own `check_permission`. */
    predicate CheckPermission(request: Request, obj: Option<Instance>)
    {
      childRelation.CheckPermission(request, obj)
    }
  }

  /** Any wrapper, however built, carries its child's permissions and decides
      by them, exactly as the child does. */
  lemma WrappersDecideAsChild(list: PermissionListSerializer, related: PermissionManyRelatedField,
                              request: Request, obj: Option<Instance>)
    ensures list.permissionClasses == list.child.permissionClasses
    ensures list.CheckPermission(request, obj) <==> PermissionsAllow(list.permissionClasses, request, obj)
    ensures related.permissionClasses == related.childRelation.permissionClasses
    ensures related.CheckPermission(request, obj) <==> PermissionsAllow(related.permissionClasses, request, obj)
  {
  }

  /** The wrapper's argument map in the serializer `many_init`: exactly `child`
      plus the allowed entries of `kwargs`, values unchanged. */
  lemma ListKwargsExact(child: PermissionField, kwargs: Kwargs)
    ensures var listKwargs := map[CHILD := ChildField(child)] + Restrict(kwargs, LIST_SERIALIZER_KWARGS);
            listKwargs.Keys == {CHILD} + kwargs.Keys * LIST_SERIALIZER_KWARGS &&
            listKwargs[CHILD] == ChildField(child) &&
            forall key :: key in listKwargs && key != CHILD ==> listKwargs[key] == kwargs[key]
  {
    assert CHILD !in LIST_SERIALIZER_KWARGS;
  }

  /** The serializer `many_init`: build the child from all the arguments, then
      the list wrapper from the child and the arguments a list accepts. */
  method ListManyInit(kwargs: Kwargs) returns (list: PermissionListSerializer)
    requires PermissionClassesWellFormed(kwargs)
    ensures fresh(list) && fresh(list.child)
    ensures list.child.permissionClasses == PermissionClassesOf(kwargs)
    ensures list.child.fieldKwargs == kwargs - {PERMISSION_CLASSES}
    ensures list.permissionClasses == list.child.permissionClasses
    ensures forall request, obj ::
              list.CheckPermission(request, obj) == list.child.CheckPermission(request, obj) &&
              list.CheckPermission(request, obj) == PermissionsAllow(list.permissionClasses, request, obj)
    ensures list.allowEmpty == if ALLOW_EMPTY in kwargs then kwargs[ALLOW_EMPTY] else Flag(true)
    ensures list.baseKwargs == Restrict(kwargs, LIST_SERIALIZER_KWARGS - {ALLOW_EMPTY})
  {
    var child := new PermissionField(kwargs);
    var listKwargs := map[CHILD := ChildField(child)];
    listKwargs := listKwargs + Restrict(kwargs, LIST_SERIALIZER_KWARGS);
    ListKwargsExact(child, kwargs);
    list := new PermissionListSerializer(listKwargs);
  }

  /** The related-field `many_init`: build the child relation from all the
      arguments, copy the allowed ones, then build the many-related wrapper. */
  method RelatedManyInit(kwargs: Kwargs) returns (related: PermissionManyRelatedField)
    requires PermissionClassesWellFormed(kwargs)
    ensures fresh(related) && fresh(related.childRelation)
    ensures related.childRelation.permissionClasses == PermissionClassesOf(kwargs)
    ensures related.childRelation.fieldKwargs == kwargs - {PERMISSION_CLASSES}
    ensures related.permissionClasses == related.childRelation.permissionClasses
    ensures forall request, obj ::
              related.CheckPermission(request, obj) == related.childRelation.CheckPermission(request, obj) &&
              related.CheckPermission(request, obj) == PermissionsAllow(related.permissionClasses, request, obj)
    ensures related.relatedKwargs == Restrict(kwargs, MANY_RELATION_KWARGS)
  {
    var child := new PermissionField(kwargs);
    var listKwargs := CopyAllowed(map[CHILD_RELATION := ChildField(child)], kwargs, MANY_RELATION_KWARGS);
    assert CHILD_RELATION !in MANY_RELATION_KWARGS;
    related := new PermissionManyRelatedField(listKwargs);
  }
}
