/**
 * The session state and buffers that the rule engine and the transport share:
 * `nekit::utils::Session` and `nekit::utils::Buffer`, as far as GeoRule and
 * TcpSocket use them.
 */
module Utils {

  newtype byte = x: int | 0 <= x < 256

  /** An IP address; its structure plays no part in the rules modelled here. */
  datatype Address = IPv4(octets: seq<byte>) | IPv6(octets: seq<byte>)

  /** Where the resolution of a domain destination stands. */
  datatype Resolution = Unresolved | Resolving | Resolved(addresses: seq<Address>) | Failed
  {
    predicate IsFailed() { Failed? }

    predicate IsResolved() { Resolved? }
  }

  datatype Domain = Domain(name: string, resolution: Resolution)

  /** A session targets either a concrete address or a domain name. */
  datatype Destination = AddressDestination(address: Address) | DomainDestination(domain: Domain)
  {
    /** A resolved domain has a first address (the rules read the front of the list). */
    predicate WellFormed()
    {
      DomainDestination? && domain.resolution.Resolved? ==> |domain.resolution.addresses| > 0
    }
  }

  /**
   * Per-connection-attempt state. Resolution machinery updates `destination`;
   * rules only read it and memoize values in `intCache`.
   */
  class Session {
    var destination: Destination
    var intCache: map<string, int>

    constructor (destination: Destination)
      ensures this.destination == destination && intCache == map[]
    {
      this.destination := destination;
      intCache := map[];
    }
  }

  /**
   * A byte buffer: `region` is the usable part (its length is `capacity()`),
   * `reserved` the space reserved at the back.
   */
  datatype Buffer = Buffer(region: seq<byte>, reserved: seq<byte>)
  {
    function Capacity(): nat { |region| }

    /** The whole storage, usable part first. */
    function Storage(): seq<byte> { region + reserved }

    /** Reserves the last `n` usable bytes: they leave the usable region, the storage stays as it was. */
    function ReserveBack(n: nat): (b: Buffer)
      requires n <= Capacity()
      ensures b.Capacity() == Capacity() - n
      ensures b.Storage() == Storage()
    {
      Buffer(region[..|region| - n], region[|region| - n..] + reserved)
    }

    /**
     * The buffer after `data` has been written at the start of the usable
     * region through the raw pointer `buffer()`: the region keeps its length,
     * and the storage past the written bytes is as it was.
     */
    function Receive(data: seq<byte>): (b: Buffer)
      requires |data| <= Capacity()
      ensures b.Capacity() == Capacity()
      ensures b.region[..|data|] == data
      ensures b.Storage() == data + Storage()[|data|..]
    {
      Buffer(data + region[|data|..], reserved)
    }
  }
}
