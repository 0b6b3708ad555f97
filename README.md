# Cluster configuration accessors (Talos `v1alpha1`)

This project models the cluster-wide part of a Talos machine configuration,
`ClusterConfig`, and the accessor layer around it. It covers the records the
configuration is made of and the readers that expose its values with defaults
filled in: the local API-server port, the CNI plugin, the pod and service
CIDRs, and the ID and secret halves of the bootstrap token. It also covers the
one setter, `SetCertSANs`, which appends certificate subject alternative names.

Layout:

- `go_strings.dfy`, module `GoStrings`: the part of Go's `strings` package that
  the readers use. It gives `Split` at a one-character separator, the `Join`
  that inverts it, and `IndexByte`/`Count` beneath them. `Split` keeps Go's
  edge cases: there is one part more than there are separators, and `""`
  splits to `[""]`.
- `cluster_config.dfy`, module `V1alpha1`: the records and the readers.
  - `ClusterConfig` and `APIServerConfig` are classes, because `SetCertSANs`
    changes them in place. A pointer to an API-server section is a nullable
    reference, so two configurations can share one section, as in Go.
  - The other sections are never changed by this code. They are immutable
    datatypes, and a Go pointer to one is an `Option` (`None` is `nil`).
  - The pure readers are functions with `reads this`. A reader that Go
    dereferences without a nil check (`Version`, `Endpoint`, `CertSANs`,
    `LocalAPIServerPort`) has the section's presence as its precondition.

The plain readers are `Version`, `Endpoint`, `CertSANs`, `CA`,
`AESCBCEncryptionSecret`, `Etcd`, and `EtcdConfig.Image`/`EtcdConfig.CA`. They
carry no ensures clause: their bodies, visible to every caller, return the
stored field. `VerbatimReaders` adds that no two different stored values read
the same, and `ReadersDependOnlyOnTheirSection` that no other field affects the
reading. Like every reader, they are functions, so they cannot change the
configuration and give the same answer every time they are called on the same
state.

Two points about the code shape the preconditions and defaults:

- `Version` (cluster_config.go:109), `Endpoint` (:114), `LocalAPIServerPort`
  (:119) and `CertSANs` (:128) dereference a pointer without a nil check and
  panic on a missing section, so the model makes the section's presence a
  precondition.
- The port and the CNI are a plain `int` and a plain `string` whose zero value
  means unset, so the port reader returns 6443 for a stored 0, and also when
  6443 itself is stored.

## Model

| member | source | states |
|---|---|---|
| `GoStrings.Split` | pkg/config/types/v1alpha1/cluster_config.go:177 | `strings.Split(token, ".")` gives one part more than the token has dots, and no part contains a dot; the empty string gives one empty part |
| `GoStrings.JoinSplit` | pkg/config/types/v1alpha1/cluster_config.go:177 | joining the parts of a split with the separator gives back the original string |
| `GoStrings.SplitJoin` | pkg/config/types/v1alpha1/cluster_config.go:177 | splitting a join of one or more parts, none containing the separator, gives back exactly those parts |
| `V1alpha1.ClusterConfig.LocalAPIServerPort` | pkg/config/types/v1alpha1/cluster_config.go:117-124 | requires the control-plane section; never returns 0; returns the stored port when it is non-zero; returns 6443 exactly when the stored port is 0 or 6443 |
| `V1alpha1.APIServerConfig.constructor` | pkg/config/types/v1alpha1/cluster_config.go:134 | the zero-valued API-server section: no image, no extra args, no SANs |
| `V1alpha1.ClusterConfig.SetCertSANs` | pkg/config/types/v1alpha1/cluster_config.go:131-138 | afterwards the API-server section exists; its SANs are the old SANs (none if the section was absent) followed by `sans`, with nothing removed or deduplicated; a missing section is created fresh with no image and no extra args; an existing section is kept and its other fields are unchanged; every other field of the configuration is unchanged |
| `V1alpha1.ClusterConfig.ID` | pkg/config/types/v1alpha1/cluster_config.go:175-183 | the ID never contains a dot, and it is "" whenever the token does not contain exactly one dot |
| `V1alpha1.ClusterConfig.Secret` | pkg/config/types/v1alpha1/cluster_config.go:185-193 | the secret never contains a dot, and it is "" whenever the token does not contain exactly one dot |
| `V1alpha1.TokenDecomposes` | pkg/config/types/v1alpha1/cluster_config.go:176-193 | for a token with exactly one dot, `ID() + "." + Secret()` is the token |
| `V1alpha1.TokenRecoveredIffOneDot` | pkg/config/types/v1alpha1/cluster_config.go:176-193 | `ID() + "." + Secret()` equals the token if and only if the token contains exactly one dot |
| `V1alpha1.IdAndSecretAgree` | pkg/config/types/v1alpha1/cluster_config.go:177-192 | `ID` and `Secret` apply the same well-formedness rule: if either is non-empty, the token has exactly one dot and both are its true halves |
| `V1alpha1.TokenHalvesAreUnique` | pkg/config/types/v1alpha1/cluster_config.go:176-193 | for a token `id + "." + secret` where neither half contains a dot, `ID` returns `id` and `Secret` returns `secret` (so `"abc123.def456"` gives `"abc123"` and `"def456"`, and `"a."` gives `"a"` and `""`) |
| `V1alpha1.ClusterConfig.CNI` | pkg/config/types/v1alpha1/cluster_config.go:200-210 | returns the configured CNI when the network section is present with a non-empty CNI, and the default otherwise (the network's CNI is never read when the section is absent); the result is never empty unless the default is |
| `V1alpha1.ClusterConfig.PodCIDR` | pkg/config/types/v1alpha1/cluster_config.go:212-222 | returns the first pod subnet when the network section has one, and the default otherwise; the result is always either the default or a configured pod subnet |
| `V1alpha1.PodCIDRIgnoresLaterSubnets` | pkg/config/types/v1alpha1/cluster_config.go:217-221 | a corollary of `PodCIDR`'s ensures, spelled out: two configurations whose pod-subnet lists have the same first element have the same pod CIDR; later elements never matter |
| `V1alpha1.ClusterConfig.ServiceCIDR` | pkg/config/types/v1alpha1/cluster_config.go:224-234 | returns the first service subnet when the network section has one, and the default otherwise; the result is always either the default or a configured service subnet |
| `V1alpha1.ServiceCIDRIgnoresLaterSubnets` | pkg/config/types/v1alpha1/cluster_config.go:229-233 | a corollary of `ServiceCIDR`'s ensures, spelled out: two configurations whose service-subnet lists have the same first element have the same service CIDR |
| `V1alpha1.VerbatimReaders` | pkg/config/types/v1alpha1/cluster_config.go:107-168 | `Version`, `Endpoint`, `CertSANs`, `CA`, `AESCBCEncryptionSecret`, `Etcd`, and etcd `Image` and `CA` lose nothing: two configurations give the same reading if and only if they store the same value in that field |
| `V1alpha1.ReadersDependOnlyOnTheirSection` | pkg/config/types/v1alpha1/cluster_config.go:107-234 | changing fields other than a reader's own section never changes that reader's result: version and port depend only on the control plane, ID and secret only on the token, CNI and the CIDRs only on the network section |

## Left out

- `Endpoint.UnmarshalYAML` and `MarshalYAML` (cluster_config.go:38-58) hand the string to Go's URL parser and printer. Those are not part of this model, so a URL is an opaque value `Url` and there is no parse/print round trip.
- `Config(t)` (cluster_config.go:151-153) always returns an empty string and no error, so there is nothing to state about it.
- `Token()` and `Network()` (cluster_config.go:171-173, 196-198) only return the configuration itself as an interface value. The model calls the token and network readers on `ClusterConfig` directly.
- `x509.PEMEncodedCertificateAndKey` is an opaque type, and the `cluster`/`machine` interface packages are not part of this model.
- `constants.DefaultCNI`, `DefaultPodCIDR` and `DefaultServiceCIDR` are not part of this model. They are constants with unspecified values, so no property depends on their contents.
- `GoStrings.Split` models `strings.Split` for a one-character separator only, the one case the token readers use.
- `V1alpha1.ClusterConfig.Etcd` returns the stored pointer, `None` when the section is absent. Go's `Etcd()` (cluster_config.go:156-158) wraps that pointer in the `cluster.Etcd` interface, and a nil pointer inside an interface value is never `== nil`: Go callers cannot see the absence, and calling `Image()` or `CA()` on it (:162, :167) panics. That typed-nil behaviour is not captured.
- `V1alpha1.ClusterConfig.SetCertSANs`: Go's `append` can write into spare capacity of a backing array that other slices share. The model treats the SAN list as a value, so that sharing is not captured. Sharing of the whole API-server section between configurations is captured.
- Go's `int` is 32 or 64 bits wide depending on the platform. The port reader does no arithmetic, so the model uses unbounded integers.
- The validator (`Config.Validate`, with its runtime-mode, strict-mode and error-aggregation rules) is not part of this model.
