/** The gRPC dial options and TLS settings the client assembles. Certificate parsing and
    the credentials' behaviour on the wire are not part of this model. */
module Transport {
  import opened Errors

  /** A client certificate/key pair as `tls.LoadX509KeyPair` returns it. */
  datatype Certificate = Certificate(der: seq<bv8>)

  /** A trust pool built from the PEM bytes of the CA certificate file. */
  datatype CertPool = CertPool(pem: seq<bv8>)

  /** The fields of `tls.Config` the client sets. */
  datatype TlsConfig = TlsConfig(
    insecureSkipVerify: bool,
    rootCAs: Option<CertPool>,
    certificates: seq<Certificate>,
    serverName: string)

  /** `grpc.WithBlock()`, `grpc.WithInsecure()`, `grpc.WithTransportCredentials(credentials.NewTLS(..))`,
      or an option a pre-dial hook added. */
  datatype DialOption =
    | WithBlock
    | WithInsecure
    | WithTransportCredentials(tls: TlsConfig)
    | HookOption(id: nat)
  {
    /** The option sets the transport's security. */
    predicate IsCredentials()
    {
      WithInsecure? || WithTransportCredentials?
    }
  }
}
