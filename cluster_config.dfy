/**
  The cluster-wide section of a node's machine configuration (package
  `v1alpha1`): the records it is made of, the readers that expose its values
  with their defaults filled in, and the one setter, `SetCertSANs`.

  A Go pointer to a record that nothing in this package changes is modelled as
  an `Option` of an immutable datatype (`None` is `nil`). The two records that
  `SetCertSANs` updates in place, `ClusterConfig` and `APIServerConfig`, are
  classes, and a pointer to them is a (nullable) reference.
 */
module V1alpha1 {
  import GoStrings

  datatype Option<T> = None | Some(value: T)

  /** A parsed URL (Go's `*url.URL`); its structure plays no part here. */
  type Url(==)

  /** A PEM-encoded certificate and key pair; its contents play no part here. */
  type PemEncodedCertificateAndKey(==)

  /** The system defaults the network readers fall back to; their values are not part of this model. */
  const DefaultCNI: string
  const DefaultPodCIDR: string
  const DefaultServiceCIDR: string

  /** The port the API server listens on when none is configured. */
  const DefaultLocalAPIServerPort: int := 6443

  /** The control-plane endpoint: a wrapper around a possibly nil URL. */
  datatype Endpoint = Endpoint(url: Option<Url>)

  datatype ControlPlaneConfig = ControlPlaneConfig(
    version: string,
    endpoint: Option<Endpoint>,
    localAPIServerPort: int)

  datatype ControllerManagerConfig = ControllerManagerConfig(image: string, extraArgs: map<string, string>)

  datatype SchedulerConfig = SchedulerConfig(image: string, extraArgs: map<string, string>)

  datatype EtcdConfig = EtcdConfig(containerImage: string, rootCA: Option<PemEncodedCertificateAndKey>)
  {
    /** The etcd container image. */
    function Image(): string
    {
      containerImage
    }

    /** The etcd root certificate authority (nil when not configured). */
    function CA(): Option<PemEncodedCertificateAndKey>
    {
      rootCA
    }
  }

  datatype ClusterNetworkConfig = ClusterNetworkConfig(
    cni: string,
    dnsDomain: string,
    podSubnet: seq<string>,
    serviceSubnet: seq<string>)

  /** The API-server section; `SetCertSANs` appends to its `certSANs` in place. */
  class APIServerConfig {
    var image: string
    var extraArgs: map<string, string>
    var certSANs: seq<string>

    /** The zero value `&APIServerConfig{}`: a nil map and a nil slice read as empty. */
    constructor ()
      ensures image == "" && extraArgs == map[] && certSANs == []
    {
      image, extraArgs, certSANs := "", map[], [];
    }
  }

  /** The cluster-wide configuration values. */
  class ClusterConfig {
    var controlPlane: Option<ControlPlaneConfig>
    var clusterName: string
    var clusterNetwork: Option<ClusterNetworkConfig>
    var bootstrapToken: string
    var certificateKey: string
    var clusterAESCBCEncryptionSecret: string
    var clusterCA: Option<PemEncodedCertificateAndKey>
    var apiServer: APIServerConfig?
    var controllerManager: Option<ControllerManagerConfig>
    var scheduler: Option<SchedulerConfig>
    var etcdConfig: Option<EtcdConfig>

    /** The Kubernetes version; the control-plane section is dereferenced without a nil check. */
    function Version(): string
      reads this
      requires controlPlane.Some?
    {
      controlPlane.value.version
    }

    /** The control-plane endpoint URL; both the section and its endpoint are dereferenced unchecked. */
    function Endpoint(): Option<Url>
      reads this
      requires controlPlane.Some? && controlPlane.value.endpoint.Some?
    {
      controlPlane.value.endpoint.value.url
    }

    /** The port the API server listens on locally: the configured one, or 6443 when it is zero. */
    function LocalAPIServerPort(): (port: int)
      reads this
      requires controlPlane.Some?
      ensures port != 0
      ensures controlPlane.value.localAPIServerPort != 0 ==> port == controlPlane.value.localAPIServerPort
      ensures port == DefaultLocalAPIServerPort <==>
                controlPlane.value.localAPIServerPort == 0 ||
                controlPlane.value.localAPIServerPort == DefaultLocalAPIServerPort
    {
      if controlPlane.value.localAPIServerPort == 0 then DefaultLocalAPIServerPort
      else controlPlane.value.localAPIServerPort
    }

    /** The extra subject alternative names of the API server certificate; the section is dereferenced unchecked. */
    function CertSANs(): seq<string>
      reads this, apiServer
      requires apiServer != null
    {
      apiServer.certSANs
    }

    /**
      Appends `sans` to the API server's certificate SANs, first creating an
      empty API-server section when there is none. Nothing is removed or
      deduplicated, and nothing else changes.
     */
    method SetCertSANs(sans: seq<string>)
      modifies this, apiServer
      ensures apiServer != null
      ensures CertSANs() == (if old(apiServer) == null then [] else old(apiServer.certSANs)) + sans
      ensures old(apiServer) == null ==> fresh(apiServer) && apiServer.image == "" && apiServer.extraArgs == map[]
      ensures old(apiServer) != null ==>
                apiServer == old(apiServer) &&
                apiServer.image == old(apiServer.image) && apiServer.extraArgs == old(apiServer.extraArgs)
      ensures controlPlane == old(controlPlane) && clusterName == old(clusterName)
      ensures clusterNetwork == old(clusterNetwork) && bootstrapToken == old(bootstrapToken)
      ensures certificateKey == old(certificateKey)
      ensures clusterAESCBCEncryptionSecret == old(clusterAESCBCEncryptionSecret) && clusterCA == old(clusterCA)
      ensures controllerManager == old(controllerManager) && scheduler == old(scheduler)
      ensures etcdConfig == old(etcdConfig)
    {
      if apiServer == null {
        apiServer := new APIServerConfig();
      }
      apiServer.certSANs := apiServer.certSANs + sans;
    }

    /** The cluster certificate authority (nil when not configured). */
    function CA(): Option<PemEncodedCertificateAndKey>
      reads this
    {
      clusterCA
    }

    /** The secret used for AES-CBC encryption of Kubernetes secrets at rest. */
    function AESCBCEncryptionSecret(): string
      reads this
    {
      clusterAESCBCEncryptionSecret
    }

    /** The stored etcd pointer; `None` when the section is absent. */
    function Etcd(): Option<EtcdConfig>
      reads this
    {
      etcdConfig
    }

    /**
      The ID half of the bootstrap token `"<id>.<secret>"`: the part before the
      dot when the token splits at `.` into exactly two parts, "" otherwise.
     */
    function ID(): (id: string)
      reads this
      ensures '.' !in id
      ensures GoStrings.Count(bootstrapToken, '.') != 1 ==> id == ""
    {
      var parts := GoStrings.Split(bootstrapToken, '.');
      if |parts| != 2 then "" else parts[0]
    }

    /** The secret half of the bootstrap token, under the same rule as `ID`. */
    function Secret(): (secret: string)
      reads this
      ensures '.' !in secret
      ensures GoStrings.Count(bootstrapToken, '.') != 1 ==> secret == ""
    {
      var parts := GoStrings.Split(bootstrapToken, '.');
      if |parts| != 2 then "" else parts[1]
    }

    /** The CNI plugin: the configured one, or the default when the network section or its CNI is missing. */
    function CNI(): (cni: string)
      reads this
      ensures cni == DefaultCNI ||
              (clusterNetwork.Some? && clusterNetwork.value.cni != "" && cni == clusterNetwork.value.cni)
      ensures clusterNetwork.Some? && clusterNetwork.value.cni != "" ==> cni == clusterNetwork.value.cni
      ensures DefaultCNI != "" ==> cni != ""
    {
      match clusterNetwork
      case None => DefaultCNI
      case Some(network) => if network.cni == "" then DefaultCNI else network.cni
    }

    /** The pod CIDR: the first configured pod subnet, or the default when there is none. */
    function PodCIDR(): (cidr: string)
      reads this
      ensures cidr == DefaultPodCIDR || (clusterNetwork.Some? && cidr in clusterNetwork.value.podSubnet)
      ensures clusterNetwork.Some? && |clusterNetwork.value.podSubnet| > 0 ==>
                cidr == clusterNetwork.value.podSubnet[0]
    {
      match clusterNetwork
      case None => DefaultPodCIDR
      case Some(network) => if |network.podSubnet| == 0 then DefaultPodCIDR else network.podSubnet[0]
    }

    /** The service CIDR: the first configured service subnet, or the default when there is none. */
    function ServiceCIDR(): (cidr: string)
      reads this
      ensures cidr == DefaultServiceCIDR || (clusterNetwork.Some? && cidr in clusterNetwork.value.serviceSubnet)
      ensures clusterNetwork.Some? && |clusterNetwork.value.serviceSubnet| > 0 ==>
                cidr == clusterNetwork.value.serviceSubnet[0]
    {
      match clusterNetwork
      case None => DefaultServiceCIDR
      case Some(network) => if |network.serviceSubnet| == 0 then DefaultServiceCIDR else network.serviceSubnet[0]
    }
  }

  /**
    A token with exactly one dot decomposes into its ID and secret: putting them
    back together around the dot gives the token.
   */
  lemma {:induction false} TokenDecomposes(c: ClusterConfig)
    requires GoStrings.Count(c.bootstrapToken, '.') == 1
    ensures c.ID() + "." + c.Secret() == c.bootstrapToken
  {
    var parts := GoStrings.Split(c.bootstrapToken, '.');
    GoStrings.JoinSplit(c.bootstrapToken, '.');
    assert GoStrings.Join(parts, '.') == parts[0] + ['.'] + GoStrings.Join(parts[1..], '.');
  }

  /**
    The token is recovered from `ID` and `Secret` exactly when it holds one dot:
    for any other token (no dot, or several) both readers give "".
   */
  lemma {:induction false} TokenRecoveredIffOneDot(c: ClusterConfig)
    ensures c.ID() + "." + c.Secret() == c.bootstrapToken <==> GoStrings.Count(c.bootstrapToken, '.') == 1
  {
    if GoStrings.Count(c.bootstrapToken, '.') == 1 {
      TokenDecomposes(c);
    } else {
      assert c.ID() + "." + c.Secret() == ".";
      assert GoStrings.Count(".", '.') == 1;
    }
  }

  /**
    `ID` and `Secret` agree on whether the token is well formed: as soon as
    either of them is non-empty, the token holds exactly one dot and both are
    its true halves.
   */
  lemma {:induction false} IdAndSecretAgree(c: ClusterConfig)
    ensures c.ID() != "" || c.Secret() != "" ==> GoStrings.Count(c.bootstrapToken, '.') == 1
    ensures c.ID() != "" || c.Secret() != "" ==> c.ID() + "." + c.Secret() == c.bootstrapToken
  {
    if c.ID() != "" || c.Secret() != "" {
      TokenDecomposes(c);
    }
  }

  /**
    `ID` and `Secret` are the only way to read a token with one dot: whenever the
    token is `id + "." + secret` with no dot in either half, they return those halves.
   */
  lemma {:induction false} TokenHalvesAreUnique(c: ClusterConfig, id: string, secret: string)
    requires '.' !in id && '.' !in secret
    requires c.bootstrapToken == id + "." + secret
    ensures c.ID() == id && c.Secret() == secret
  {
    assert GoStrings.Join([id, secret], '.') == c.bootstrapToken;
    GoStrings.SplitJoin([id, secret], '.');
  }

  /** A corollary of `PodCIDR`'s ensures: the first pod subnet alone decides the pod CIDR. */
  lemma PodCIDRIgnoresLaterSubnets(c: ClusterConfig, d: ClusterConfig)
    requires c.clusterNetwork.Some? && d.clusterNetwork.Some?
    requires |c.clusterNetwork.value.podSubnet| > 0 && |d.clusterNetwork.value.podSubnet| > 0
    requires c.clusterNetwork.value.podSubnet[0] == d.clusterNetwork.value.podSubnet[0]
    ensures c.PodCIDR() == d.PodCIDR()
  {
  }

  /** A corollary of `ServiceCIDR`'s ensures: the first service subnet alone decides the service CIDR. */
  lemma ServiceCIDRIgnoresLaterSubnets(c: ClusterConfig, d: ClusterConfig)
    requires c.clusterNetwork.Some? && d.clusterNetwork.Some?
    requires |c.clusterNetwork.value.serviceSubnet| > 0 && |d.clusterNetwork.value.serviceSubnet| > 0
    requires c.clusterNetwork.value.serviceSubnet[0] == d.clusterNetwork.value.serviceSubnet[0]
    ensures c.ServiceCIDR() == d.ServiceCIDR()
  {
  }

  /**
    The plain readers hand back their stored field verbatim: two configurations
    give the same reading exactly when they store the same value in that field.
   */
  lemma VerbatimReaders(c: ClusterConfig, d: ClusterConfig, e: EtcdConfig, f: EtcdConfig)
    ensures c.controlPlane.Some? && d.controlPlane.Some? ==>
              (c.Version() == d.Version() <==> c.controlPlane.value.version == d.controlPlane.value.version)
    ensures c.controlPlane.Some? && c.controlPlane.value.endpoint.Some? &&
            d.controlPlane.Some? && d.controlPlane.value.endpoint.Some? ==>
              (c.Endpoint() == d.Endpoint() <==>
                 c.controlPlane.value.endpoint.value.url == d.controlPlane.value.endpoint.value.url)
    ensures c.apiServer != null && d.apiServer != null ==>
              (c.CertSANs() == d.CertSANs() <==> c.apiServer.certSANs == d.apiServer.certSANs)
    ensures c.CA() == d.CA() <==> c.clusterCA == d.clusterCA
    ensures c.AESCBCEncryptionSecret() == d.AESCBCEncryptionSecret() <==>
              c.clusterAESCBCEncryptionSecret == d.clusterAESCBCEncryptionSecret
    ensures c.Etcd() == d.Etcd() <==> c.etcdConfig == d.etcdConfig
    ensures e.Image() == f.Image() <==> e.containerImage == f.containerImage
    ensures e.CA() == f.CA() <==> e.rootCA == f.rootCA
  {
  }

  /**
    Every reader depends on its own section only: configurations that agree on
    that section agree on the reading, whatever they store elsewhere.
   */
  lemma ReadersDependOnlyOnTheirSection(c: ClusterConfig, d: ClusterConfig)
    ensures c.controlPlane == d.controlPlane && c.controlPlane.Some? ==>
              c.Version() == d.Version() && c.LocalAPIServerPort() == d.LocalAPIServerPort()
    ensures c.bootstrapToken == d.bootstrapToken ==> c.ID() == d.ID() && c.Secret() == d.Secret()
    ensures c.clusterNetwork == d.clusterNetwork ==>
              c.CNI() == d.CNI() && c.PodCIDR() == d.PodCIDR() && c.ServiceCIDR() == d.ServiceCIDR()
  {
  }

  /** A client of `SetCertSANs`'s contract: SANs accumulate in call order, duplicates included. */
  method CertSANsExamples()
  {
    var c := new ClusterConfig;
    c.apiServer := null;
    c.SetCertSANs(["10.0.0.1"]);
    c.SetCertSANs(["10.0.0.1", "cluster.local"]);
    assert c.CertSANs() == ["10.0.0.1", "10.0.0.1", "cluster.local"];
  }
}
