# Per-field permission filtering of serializer output

This project models the core of `django-rest-serializer-field-permissions` in Dafny. That library is a
mixin for Django REST framework serializers. Each field may carry a tuple of permission objects. On every
representation pass the serializer drops the fields whose permissions deny the current request and
serialized instance.

- `Permissions` (`permissions.dfy`) holds the four permission objects the test suite uses: `AllowAny`,
  `AllowNone`, `IsAuthenticated` and the object-level `IsArtist`. Requests carry a user (authenticated
  or not, with a user name). Instances carry the one attribute a permission reads, `artist`.
- `Fields` (`fields.dfy`, modelling `fields.py`) holds three things:
  - the permission decision `check_permission`, as a conjunction over the ordered tuple;
  - the evaluation trace of that decision, that is, which `has_permission` and `has_object_permission`
    calls Python's short-circuiting `all`/`and`/`or` actually makes;
  - the permission-capable field and the two `many=True` wrappers with their `many_init` keyword-argument
    filtering.
  Field objects are never changed after construction, so they are classes with `const` fields.
- `Serializers` (`serializers.dfy`, modelling `serializers.py`) holds the filtering serializer. It is a class:
  - it has a `currentInstance` slot and a `cachedFields` slot (the cached `fields` property);
  - its invariant `Valid()` says a cached map is always the map filtered for the current instance;
  - `ScrubFields` is the body of the `fields` property. It first collects the forbidden names, then pops
    each from the map. It is proved equal to the specification function `Permitted`: the base map in its
    own order, minus exactly the fields that have a check and fail it.
- `Wrappers` (`wrappers.dfy`) holds `Option` and `Result`.

How the code behaves, in points a reader may not expect:
- The filtered map is not recomputed on every read. `fields` is a cached property; `to_representation`
  deletes the cached value at the start of each pass (serializers.py:24-28), so it is recomputed once
  per pass, for that pass's instance.
- Failing permission checks raise nothing: a field whose check returns false is dropped. The only error
  is the `RuntimeError` raised when the context has no request (serializers.py:42-45). The modelled
  permission predicates are total, so no other error arises.
- Filtering pops entries in place from the map the framework's property has just built. The model does
  these pops on a local copy of the base map (`ret` in `ScrubFields`).

## Model

| member | source | states |
|---|---|---|
| `Permissions.HasPermission` | rest_framework_serializer_field_permissions/tests/tests.py:16-37 | The request-level check: `AllowAny` allows, `AllowNone` denies, `IsAuthenticated` allows exactly an authenticated user, `IsArtist` keeps the true default. |
| `Permissions.HasObjectPermission` | rest_framework_serializer_field_permissions/tests/tests.py:223-225 | The object-level check: `IsArtist` allows exactly the user whose name is the object's `artist`; `AllowAny` allows, `AllowNone` denies, `IsAuthenticated` keeps the true default. |
| `Permissions.PermissionBehaviour` | rest_framework_serializer_field_permissions/tests/tests.py:16-37 | `AllowAny` always allows and `AllowNone` never does. `IsAuthenticated` allows exactly authenticated users. `IsArtist` allows exactly the user whose name is the object's artist, so never the anonymous user on an album that has an artist. |
| `Fields.PermissionsAllow` | rest_framework_serializer_field_permissions/fields.py:30-36 | The decision over the ordered tuple: each permission's request check and, with an object, its object check, all required. |
| `Fields.PermissionsAllowEvery` | rest_framework_serializer_field_permissions/fields.py:30-36 | The decision holds iff every permission passes its request check and, when an object is present, its object check. |
| `Fields.PermissionsAllowEmpty` | rest_framework_serializer_field_permissions/fields.py:35-36 | An empty permission tuple allows every request and object. |
| `Fields.PermissionsAllowPair` | rest_framework_serializer_field_permissions/tests/tests.py:66-81 | Two permissions decide as the conjunction of both, in all four truth combinations. |
| `Fields.PermissionsAllowReordered` | rest_framework_serializer_field_permissions/fields.py:35-36 | Any rearrangement of the permission tuple gives the same decision. |
| `Fields.PermissionsAllowWithoutObject` | rest_framework_serializer_field_permissions/fields.py:35 | Without an object, the decision is exactly "every request-level check passes". |
| `Fields.PermissionsDeniedByRequest` | rest_framework_serializer_field_permissions/fields.py:35-36 | One failing request-level check denies, whatever the object. |
| `Fields.FieldPermissionExamples` | rest_framework_serializer_field_permissions/tests/tests.py:50-81 | The single- and double-permission examples of the field tests decide as the tests assert. |
| `Fields.Consulted` | rest_framework_serializer_field_permissions/fields.py:35-36 | The calls Python's short-circuiting `all`, `and` and `or` make, in order, from a given position of the tuple. |
| `Fields.ConsultedWithoutObject` | rest_framework_serializer_field_permissions/fields.py:35 | Without an object the evaluation never calls `has_object_permission`. |
| `Fields.ConsultedUntilDenied` | rest_framework_serializer_field_permissions/fields.py:35-36 | After a failing `has_permission` the evaluation calls nothing on later permissions, and not that permission's object check. |
| `Fields.ConsultedDecides` | rest_framework_serializer_field_permissions/fields.py:35-36 | The decision holds iff every call the short-circuit evaluation makes returns true. |
| `Fields.PermissionClassesOf` | rest_framework_serializer_field_permissions/fields.py:25 | `kwargs.pop("permission_classes", ())`: the given tuple, or the empty one. |
| `Fields.Restrict` | rest_framework_serializer_field_permissions/fields.py:69-72 | The comprehension keeps exactly the entries whose key is allowed, with values unchanged. |
| `Fields.CopyAllowed` | rest_framework_serializer_field_permissions/fields.py:85-88 | The key loop gives the starting map plus exactly the allowed entries of the arguments, values unchanged. Allowed entries override the starting map. |
| `Fields.PermissionField.constructor` | rest_framework_serializer_field_permissions/fields.py:24-28 | The field takes `permission_classes` out of the arguments, defaulting to the empty tuple, and passes the rest on. Built without it, its check allows everything. |
| `Fields.PermissionField.CheckPermission` | rest_framework_serializer_field_permissions/fields.py:30-36 | A field's check is the decision over its own permission tuple. |
| `Fields.PermissionListSerializer.CheckPermission` | rest_framework_serializer_field_permissions/fields.py:51 | The list wrapper's check is its child's bound check. |
| `Fields.PermissionManyRelatedField.CheckPermission` | rest_framework_serializer_field_permissions/fields.py:80 | The many-related wrapper's check is its child relation's bound check. |
| `Fields.WrappersDecideAsChild` | rest_framework_serializer_field_permissions/fields.py:50-51 | However a wrapper was built, its `permission_classes` are its child's, and its check is the decision over them. The same holds of the many-related wrapper (fields.py:79-80). |
| `Fields.PermissionListSerializer.constructor` | rest_framework_serializer_field_permissions/fields.py:47-53 | The list wrapper takes `child` and `allow_empty` (default true) and copies the child's permissions. It decides through the child's own check. |
| `Fields.PermissionManyRelatedField.constructor` | rest_framework_serializer_field_permissions/fields.py:78-81 | The many-related wrapper takes `child_relation` and copies its permissions. It decides through the child relation's own check. |
| `Fields.ListKwargsExact` | rest_framework_serializer_field_permissions/fields.py:68-72 | The list wrapper's arguments are exactly `child` plus the entries whose key is a list-serializer argument, values unchanged. |
| `Fields.ListManyInit` | rest_framework_serializer_field_permissions/fields.py:64-73 | The list built by `many_init` has its fresh child's permissions and decides exactly as the child. It gets `allow_empty` and the other allowed arguments unchanged. |
| `Fields.RelatedManyInit` | rest_framework_serializer_field_permissions/fields.py:83-89 | The many-related field built by `many_init` has its fresh child relation's permissions and decides exactly as it. It gets exactly the allowed arguments unchanged. |
| `Serializers.BoundField.HasCheckPermission` | rest_framework_serializer_field_permissions/serializers.py:48 | `hasattr(field, 'check_permission')`: true for the permission-capable field and both wrappers, false for plain framework fields. |
| `Serializers.BoundField.Shown` | rest_framework_serializer_field_permissions/serializers.py:48 | A field is kept when it has no check or passes it, the negation of the forbidden test. |
| `Serializers.BoundField.Permissions` | rest_framework_serializer_field_permissions/fields.py:28 | `field.permission_classes`: the field's own tuple, or the one a wrapper copied from its child. |
| `Serializers.CheckPermissionDecides` | rest_framework_serializer_field_permissions/fields.py:30-36 | Every permission-capable field, wrappers included, decides by the decision over its `permission_classes`. |
| `Serializers.Permitted` | rest_framework_serializer_field_permissions/serializers.py:47-52 | The filtered map is never longer than the base map. |
| `Serializers.PermittedMembers` | rest_framework_serializer_field_permissions/serializers.py:47-52 | An entry is kept iff it is in the base map and either has no `check_permission` or passes it. Fields without a check are always kept. |
| `Serializers.PermittedInOrder` | rest_framework_serializer_field_permissions/serializers.py:47-52 | The kept entries are a subsequence of the base map, so they keep its order. |
| `Serializers.PermittedUnique` | rest_framework_serializer_field_permissions/serializers.py:47-54 | Filtering a dictionary yields a dictionary: no name twice. |
| `Serializers.PermittedIdentity` | rest_framework_serializer_field_permissions/serializers.py:47-52 | The base map comes back unchanged iff every field is shown, for example when no field has a check. |
| `Serializers.PermittedNames` | rest_framework_serializer_field_permissions/serializers.py:47-54 | In a dictionary a field's name is among the output names iff the field has no check or passes it. |
| `Serializers.AlwaysHiddenAlwaysShown` | rest_framework_serializer_field_permissions/tests/tests.py:119-131 | Any permission-capable field, plain field or `many=True` wrapper, with `AllowNone` among its permissions is dropped for every request and instance. One with only `AllowAny` is always kept. In a dictionary the same holds of its name in the output. |
| `Serializers.WithoutInstance` | rest_framework_serializer_field_permissions/serializers.py:17-19 | With no instance recorded, only the request-level checks decide whether a permission-capable field, and in a dictionary its name, is kept. |
| `Serializers.AuthenticationDecides` | rest_framework_serializer_field_permissions/tests/tests.py:212-219 | A permission-capable field whose permissions are `IsAuthenticated` is kept iff the user is authenticated. |
| `Serializers.InstanceDecides` | rest_framework_serializer_field_permissions/tests/tests.py:246-263 | Under one request, a permission-capable field whose permissions are `IsArtist` is kept for the requester's album and dropped for another artist's. |
| `Serializers.NameEmailSsn` | rest_framework_serializer_field_permissions/serializers.py:47-54 | A map of an unchecked, a denied and an allowed field filters to the first and last, in that order. |
| `Serializers.ForbiddenNames` | rest_framework_serializer_field_permissions/serializers.py:47-49 | The names of the fields that have a check and fail it, in map order; never more names than fields. |
| `Serializers.ForbiddenInMap` | rest_framework_serializer_field_permissions/serializers.py:47-49 | Every forbidden name is a name of the map. |
| `Serializers.ForbiddenDistinct` | rest_framework_serializer_field_permissions/serializers.py:47-49 | In a dictionary each forbidden name is listed once. |
| `Serializers.ForbiddenExact` | rest_framework_serializer_field_permissions/serializers.py:47-49 | In a dictionary a name is forbidden iff its field has a check and fails it. |
| `Serializers.Pop` | rest_framework_serializer_field_permissions/serializers.py:52 | `ret.pop(name)` on a map that has the name removes one entry. |
| `Serializers.PopNext` | rest_framework_serializer_field_permissions/serializers.py:51-52 | Each name the loop pops is still in the map, so `pop` never fails, and popping it removes exactly that entry. |
| `Serializers.CollectForbidden` | rest_framework_serializer_field_permissions/serializers.py:47-49 | The comprehension's loop yields exactly the forbidden names, in map order. |
| `Serializers.PopAll` | rest_framework_serializer_field_permissions/serializers.py:51-52 | Popping distinct names of a dictionary one by one never fails, and leaves the map without exactly those names. |
| `Serializers.ScrubFields` | rest_framework_serializer_field_permissions/serializers.py:38-54 | With no request it fails with the "request not available" error and returns no map. Otherwise collecting and popping yields exactly the permitted map. |
| `Serializers.FieldPermissionSerializer.constructor` | rest_framework_serializer_field_permissions/serializers.py:17-19 | A new serializer has no current instance and nothing cached. |
| `Serializers.FieldPermissionSerializer.InvalidateFields` | rest_framework_serializer_field_permissions/serializers.py:24-28 | Deleting the cached fields leaves nothing cached and restores the invariant, whatever the current instance. With nothing cached it changes nothing. |
| `Serializers.FieldPermissionSerializer.Fields` | rest_framework_serializer_field_permissions/serializers.py:32-54 | A cached map is returned unchanged. Otherwise the map filtered for the current instance is returned and cached. Without a request the read fails and leaves the cache as it was, so the invariant holds. This is the corrected read; see "## Findings". |
| `Serializers.FieldPermissionSerializer.FieldsAsWritten` | rest_framework_serializer_field_permissions/serializers.py:32-54 | The read as written: a cached map is returned unchanged; with a request it behaves as the corrected read. Without a request it fails, but leaves the unfiltered base map cached, and the invariant no longer holds. |
| `Serializers.FieldPermissionSerializer.ToRepresentation` | rest_framework_serializer_field_permissions/serializers.py:21-30 | The instance is recorded and the cache invalidated, so the output fields are those permitted for this instance, never an earlier one. |

| `Serializers.MissingRequest` | rest_framework_serializer_field_permissions/serializers.py:42-45 | A serializer without a request fails on its first read of the fields and again on the second. |
| `Serializers.LeakAfterMissingRequest` | rest_framework_serializer_field_permissions/serializers.py:38-45 | As written, the first read without a request fails and the second returns the unfiltered map, with an `AllowNone` field in it. |

The client method `Serializers.TwoAlbumsInTurn` replays one scenario through the class contracts alone:
one serializer is used for two albums in turn. The diary is shown for the first album and hidden for the
second, and repeated reads of the cache agree.

## Findings

| source | as written | input that shows it | evidently intended | confidence | as-written member | corrected member |
|---|---|---|---|---|---|---|
| rest_framework_serializer_field_permissions/serializers.py:38-45 | The property reads the framework's `fields` first. That is itself a cached property under the same name, so it stores the unfiltered map in the instance. Then the property raises when the request is missing, and the stored map stays. | A serializer whose context request is `None`, with a field whose permissions are `(AllowNone(),)`. Read `fields`, catch the `RuntimeError`, and read `fields` again: the second read returns every field, the denied one included. | Every read without a request fails, and no unfiltered map is ever cached; check the request before reading the framework's map. | medium, not executed; it rests on the framework's `Serializer.fields` being a cached property named `fields` | `Serializers.FieldPermissionSerializer.FieldsAsWritten` | `Serializers.FieldPermissionSerializer.Fields` |

`Serializers.LeakAfterMissingRequest` exhibits the as-written behaviour and `Serializers.MissingRequest`
the corrected one. `ToRepresentation` and the rest of the model use the corrected read.

## Left out

- The one-line field subclasses (fields.py:93-202) are framework glue. One generic `PermissionField`
  stands for all of them.
- Framework internals are not modelled. These are the default `child` (a deep copy of the class
  attribute), the `child is not None` and "not a class" assertions, `bind`, and the framework's own
  constructors. So `PermissionListSerializer` requires a `child` argument, and `PermissionManyRelatedField`
  requires a `child_relation` argument.
- `LIST_SERIALIZER_KWARGS` and `MANY_RELATION_KWARGS` are defined by Django REST framework, not by this
  library. The model copies their values from framework version 3.14.
- The framework's computation of the base field map is not modelled. Neither is the serialization of
  values. The base map is a `const` input. `ToRepresentation` returns the names of the output fields, in
  order, rather than their values.
- The permissions module is not part of this model. Permission behaviour comes from the tests. A method
  that no test overrides is taken to return true, as its base class's default does: `has_permission` of
  `IsArtist` and `has_object_permission` of `IsAuthenticated`. No assertion in the test suite contradicts
  that choice.
- Python truthiness of `obj` is not modelled beyond absent or present: the object is an `Option`.
- A context without a `'request'` key (a `KeyError`) is not modelled. Nor are the middleware and the
  database.
- `Fields.PermissionField.constructor` requires `permission_classes`, when given, to be a tuple of
  permission objects. The source would store anything and fail later, on iteration.
- Nested filtering serializers used as fields are not modelled as one structure: a nested serializer's
  filtering of its own fields is not tied to its parent's.
- Storing `current_instance` on a shared object is a concurrency hazard. Concurrency is not modelled;
  everything here is sequential.
- Keyword arguments are modelled as maps, so their order is not kept.
- Positional arguments (`*args`) are not modelled. `PermissionMixin.__init__` passes them on to the
  framework's constructor (fields.py:24, 27). `many_init` passes them to the child and the list wrapper
  (fields.py:65, 67, 73) and to the child relation (fields.py:84-85), but not to the many-related
  wrapper (fields.py:89). Only framework constructors read them.
- Serializers.FieldPermissionSerializer.Fields: models the corrected read. As written, a read without a
  request leaves the unfiltered map cached; `FieldsAsWritten` models that, and "## Findings" says why.
- Serializers.FieldPermissionSerializer.ToRepresentation: uses the corrected read, so without a request
  nothing is cached afterwards. As written, the pass fails after the framework's map has been cached
  unfiltered, and a later read of `fields` returns it.
