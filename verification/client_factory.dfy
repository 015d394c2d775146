/**
 The client factory each component owns: it remembers at most one security
 token and stamps every client it creates with credentials and, when a token
 is held, one digest security header on that client's own inspector.
 */
module ClientFactory {
  import opened Outcomes
  import opened SecurityTokens
  import opened MessageInspector

  datatype Credential = Credential(userName: string, password: string)

  /** An XML element echoed back by the device as a subscription reference parameter. */
  datatype XmlElement = XmlElement(name: string, ns: string, innerXml: string)

  datatype AddressHeader = CustomAddressHeader(element: XmlElement)

  /** A SOAP endpoint: its URI and the address headers sent with every call to it. */
  datatype EndpointAddress = EndpointAddress(uri: string, headers: seq<AddressHeader>)

  /** The WS-Security UsernameToken digest header; its digest computation is not modelled. */
  datatype OutgoingHeader = DigestSecurityHeader(credential: Credential, token: SecurityToken)

  /** A created client: endpoint, the two credential slots, and the header list of the
      inspector created for it alone. */
  datatype Client = Client(
    endpoint: EndpointAddress,
    userNameCredential: Credential,
    httpDigestCredential: Credential,
    inspectorHeaders: seq<OutgoingHeader>)

  datatype Factory = Factory(token: Option<SecurityToken>)

  /** A freshly constructed factory holds no token, so its clients carry no header. */
  function NewFactory(): (f: Factory)
    ensures f.token.None?
    ensures forall e, u, p :: CreateClient(f, e, u, p).inspectorHeaders == []
  {
    Factory(None)
  }

  /** `SetSecurityToken` overwrites the stored token, with `null` as well: what was held
      before is forgotten. */
  function SetSecurityToken(f: Factory, token: Option<SecurityToken>): (r: Factory)
    ensures r.token == token
  {
    f.(token := token)
  }

  /** `CreateClient`: both credential slots get the same user name and password, and
      the new inspector holds exactly one digest header iff the factory holds a token. */
  function CreateClient(f: Factory, endpoint: EndpointAddress, username: string, password: string): (c: Client)
    ensures c.endpoint == endpoint
    ensures c.userNameCredential == Credential(username, password)
    ensures c.httpDigestCredential == c.userNameCredential
    ensures |c.inspectorHeaders| == (if f.token.Some? then 1 else 0)
    ensures f.token.Some? ==>
      c.inspectorHeaders == [DigestSecurityHeader(c.httpDigestCredential, f.token.value)]
  {
    var credential := Credential(username, password);
    var headers := if f.token.Some? then [DigestSecurityHeader(credential, f.token.value)] else [];
    Client(endpoint, credential, credential, headers)
  }

  /** The clients created after `SetSecurityToken` carry a digest header for exactly the token
      set last, whatever the factory held before; setting `null` stops the stamping. */
  lemma {:induction false} LastTokenDecidesHeaders(f: Factory, token: Option<SecurityToken>,
                                                   endpoint: EndpointAddress, username: string, password: string)
    ensures CreateClient(SetSecurityToken(f, token), endpoint, username, password).inspectorHeaders
      == if token.Some? then [DigestSecurityHeader(Credential(username, password), token.value)] else []
  {
  }
}
