# jsonapi: Nullable and node merging, in Dafny

This project models two small parts of the Go `jsonapi` package.

- `Nullable[T]` (nullable.go) is a tri-state optional field. It is a
  `map[bool]T`. No key means the field was not provided. The key `false`
  means an explicit `null`. The key `true` means a value was provided.
  `nullable.dfy` models it as the class `Nullable.Nullable<T>`.
  - The Go map is the field `entries`.
  - The pointer-receiver setters are methods that replace `entries`.
  - The value-receiver getters are functions that read `this`.
  - `Get` returns Go's `(T, error)` pair as a `GetResult`. Its error is one of
    `NullErr` or `UnspecifiedErr`.
  - Dafny cannot name the zero value of an arbitrary `T`. Each container
    therefore carries it as the constant `zero`. `Get` returns it on an error,
    and `SetNull` stores it under `false`. The `bool` and `time.Time` helpers
    supply `false` and `ZeroTime`.
- `mergeNodes` and `firstNonEmpty` (merge_nodes.go) build one node out of a
  `base` and a `source` node. `merge_nodes.dfy` models them as pure functions
  over the datatype `Merge.Node`. That datatype holds only the fields the
  merge reads. The attribute values, relationship descriptors, links and meta
  are type parameters.
  - Identity strings come from `source` when it is non-empty.
  - The attribute and relationship maps come from `source` only when its map
    has strictly more entries than `base`'s. On a tie, `base`'s map is kept.
  - Links and meta come from `source` when they are set.

`wrappers.dfy` holds the `Option` datatype both modules use.

Two behaviours of the code are worth stating on their own.
- `IsSpecified` is `len(t) != 0`, so it is true for an explicit null as well
  as for a held value (nullable.go:90-92). Only `IsNull` tells the two apart.
- The attribute and relationship maps are compared by entry count only, and
  on equal counts `base`'s map is kept (merge_nodes.go:12-27). Their contents
  play no part. `Merge.MergeComparesSizesOnly` shows this on a concrete pair
  of nodes.

## Model

| member | source | states |
|---|---|---|
| `Nullable.Nullable.constructor` | nullable.go:25-35 | A zero `Nullable` (nil map) is unspecified: not null, not specified, and `Get` fails with the unspecified error and the zero value |
| `Nullable.Nullable.IsNull` | nullable.go:77-81 | Whenever the explicit-null key is present, the container also counts as specified |
| `Nullable.Nullable.IsSpecified` | nullable.go:89-92 | The length test is true exactly when the map holds the `false` key or the `true` key, so it is true for an explicit null as well as for a value |
| `Nullable.KeyCount` | nullable.go:89-92 | A map keyed by `bool` has exactly one entry per key among `false` and `true` that it holds |
| `Nullable.Nullable.Get` | nullable.go:55-65 | Null error exactly when the `false` key is present, even beside a `true` key; unspecified error exactly when the map is empty; success exactly when only `true` is present, returning its value; every error returns the zero value |
| `Nullable.Nullable.Set` | nullable.go:67-70 | Whatever the previous state, the map becomes `{true: value}`; afterwards `Get` succeeds with `value`, `IsNull` is false and `IsSpecified` is true |
| `Nullable.Nullable.SetNull` | nullable.go:83-87 | Whatever the previous state, the map becomes `{false: zero}`; afterwards `IsNull` and `IsSpecified` are both true and `Get` fails with the null error |
| `Nullable.Nullable.SetUnspecified` | nullable.go:94-97 | Whatever the previous state, the map becomes empty; afterwards `IsNull` and `IsSpecified` are false and `Get` fails with the unspecified error |
| `Nullable.GetDeterminesSetting` | nullable.go:25-29 | On maps the setters produce, two containers with the same zero value and the same `Get` outcome hold the same map, so the three states are told apart by `Get` |
| `Nullable.NewNullableWithValue` | nullable.go:37-44 | A fresh container holding `{true: t}`, whose `Get` yields `t` with no error |
| `Nullable.NewNullNullable` | nullable.go:46-53 | A fresh container holding `{false: zero}`, which is null and whose `Get` fails with the null error |
| `Nullable.NullableBool` | nullable.go:99-101 | `NewNullableWithValue` at `bool`, with zero value `false` |
| `Nullable.NullBool` | nullable.go:103-105 | `NewNullNullable` at `bool`: holds `{false: false}` and is null |
| `Nullable.NullableTime` | nullable.go:107-109 | `NewNullableWithValue` at the time type, with zero value `ZeroTime` |
| `Nullable.NullTime` | nullable.go:111-113 | `NewNullNullable` at the time type: holds `{false: ZeroTime}` and is null |
| `Merge.FirstNonEmpty` | merge_nodes.go:45-52 | The result is `""` exactly when every argument is empty; otherwise it is one of the arguments |
| `Merge.FirstNonEmptyIsFirst` | merge_nodes.go:45-52 | The result is the first non-empty argument in order; later arguments do not matter |
| `Merge.FirstNonEmptyOfTwo` | merge_nodes.go:7-10 | With two arguments, the result is the first if it is non-empty, else the second |
| `Merge.MergeNodes` | merge_nodes.go:3-43 | Each identity string is `source`'s when non-empty, else `base`'s; attributes and relationships are `source`'s exactly when its map is strictly larger, else `base`'s, so the nil and non-empty guards add nothing; links and meta are `source`'s when set, else `base`'s |
| `Merge.MergeIdempotent` | merge_nodes.go:3-43 | Merging a node with itself gives that node |
| `Merge.MergeEmptySource` | merge_nodes.go:3-43 | Merging any `base` with an all-empty `source` gives `base` |
| `Merge.MergeSelectsWholeFields` | merge_nodes.go:6-40 | Every field of the result is that field of one operand; nothing is combined key by key |
| `Merge.MergeEmptyOnlyWhenBothEmpty` | merge_nodes.go:6-40 | An identity string of the result is empty, and links or meta are unset, only when that is so in both operands |
| `Merge.MergeKeepsLargerMaps` | merge_nodes.go:12-27 | The result's maps are at least as large as either operand's, and on equal sizes they are `base`'s |
| `Merge.MergeMapChoiceBySizeOnly` | merge_nodes.go:12-27 | Two sources with equal map sizes lead to the same choice: both results keep their own source's map, or both keep `base`'s |
| `Merge.MergeComparesSizesOnly` | merge_nodes.go:12-19 | An example: with equal attribute counts, the base's attributes are kept even though the source's value is non-empty and the base's is empty |

## Left out

- `SetInterface` (nullable.go:72-75) is not modelled. It is `Set` after a runtime type assertion that panics on a mismatched dynamic type, and Dafny has no dynamic types.
- `supportedNullableTypes` (nullable.go:9-12) is not modelled. It is a reflection table with no behaviour in nullable.go.
- JSON marshalling of `Nullable` is not modelled. `T` is an opaque type parameter.
- Go's `time.Time` is a stand-in datatype `Time` with a zero constant `ZeroTime`. Only its role as a zero value is modelled.
- A Go nil map and an empty map are both `map[]`, since `len` and lookups do not tell them apart. A result that keeps `base`'s nil map rather than `source`'s empty one is therefore not distinguished.
- The merge result shares the selected maps and pointers with its operands by reference. Dafny maps and options are values, so only which operand is selected is modelled, not the sharing.
- Go's `Node` is declared outside nullable.go and merge_nodes.go. `Merge.Node` holds only the eight fields `mergeNodes` reads. The Go result starts as `Node{}`, so any other field of a Go `Node` is zero in the result; such fields are not modelled.
- generator.go is not part of this model. It declares only an ID-generator interface and two error-message constants.
- Merge.MergeNodes: takes and returns node values, so both operands are assumed non-nil. Go's `mergeNodes` takes pointers and panics on a nil `base` or `source` at its first field read (merge_nodes.go:7).
- Nullable.Nullable: a `Nullable` object stands for one Go variable of type `Nullable[T]`. In Go the type is a map value and the setters rebind the receiver, so `b := a; b.SetNull()` leaves `a` as it was. Copying a Go `Nullable` value has no counterpart here: two Dafny references to one object share every later setter call.
