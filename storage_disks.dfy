/**
 * Storage type names and the disk configuration a location gets
 * (hrms/app/Services/DocumentService.php, getStorageTypeName and configureDisk).
 * PlanDisk says which disk configureDisk hands back and which entry, if any, it writes
 * into the `filesystems.disks` configuration; the write itself is DocumentService's.
 */
module StorageDisks {
  import opened Wrappers
  import opened Text
  import opened StorageLocations

  const WasabiType: int := 2
  const AwsType: int := 3

  /** getStorageTypeName: the `match` on location_type. */
  function StorageTypeName(locationType: int): (name: string)
    ensures name == "unknown" <==> locationType !in {LocalType, WasabiType, AwsType}
    ensures name in {"local", "wasabi", "aws", "unknown"}
  {
    match locationType
    case 1 => "local"
    case 2 => "wasabi"
    case 3 => "aws"
    case _ => "unknown"
  }

  /** A `wasabi_configs` / `aws_configs` row, eagerly loaded with its location. */
  datatype CloudConfig = CloudConfig(accessKey: string, secretKey: string, region: string, bucket: string)

  /** The array configureDisk passes to `Config::set("filesystems.disks.<name>", ...)`. */
  datatype DiskConfig = DiskConfig(
    driver: string, key: string, secret: string, region: string, bucket: string,
    endpoint: Option<string>, usePathStyleEndpoint: Option<bool>, throwOnError: bool)

  /** The disk configureDisk returns: the fixed `'public'` disk, or a per-location disk it registers. */
  datatype DiskChoice = PublicDisk | DynamicDisk(name: string, config: DiskConfig) {
    function Name(): string {
      match this
      case PublicDisk => "public"
      case DynamicDisk(n, _) => n
    }
  }

  /** The exceptions configureDisk throws when the location's config record is missing. */
  datatype DiskError = WasabiConfigMissing(locationId: nat) | AwsConfigMissing(locationId: nat)

  function DynamicDiskName(l: Location): string {
    "dynamic_disk_" + StorageTypeName(l.locationType) + "_" + NatToString(l.id)
  }

  function WasabiEndpoint(region: string): string {
    "https://s3." + region + ".wasabisys.com"
  }

  /** configureDisk, given the location's eagerly loaded wasabiConfig and awsConfig. */
  function PlanDisk(l: Location, wasabi: Option<CloudConfig>, aws: Option<CloudConfig>): (r: Result<DiskChoice, DiskError>)
    ensures r.Err? <==> (l.locationType == WasabiType && wasabi.None?) || (l.locationType == AwsType && aws.None?)
    ensures r.Ok? && r.value.DynamicDisk? ==> r.value.name == DynamicDiskName(l) && r.value.config.driver == "s3"
    ensures r.Ok? && r.value.PublicDisk? <==> l.locationType !in {WasabiType, AwsType}
  {
    if l.locationType == LocalType then Ok(PublicDisk)
    else if l.locationType == WasabiType then
      match wasabi
      case None => Err(WasabiConfigMissing(l.id))
      case Some(c) =>
        Ok(DynamicDisk(DynamicDiskName(l),
          DiskConfig("s3", c.accessKey, c.secretKey, c.region, c.bucket, Some(WasabiEndpoint(c.region)), Some(false), true)))
    else if l.locationType == AwsType then
      match aws
      case None => Err(AwsConfigMissing(l.id))
      case Some(c) =>
        Ok(DynamicDisk(DynamicDiskName(l), DiskConfig("s3", c.accessKey, c.secretKey, c.region, c.bucket, None, None, true)))
    else Ok(PublicDisk)
  }

  /** Local and unknown types get the shared `'public'` disk whatever configs exist. */
  lemma PublicDiskForLocalAndUnknown(l: Location, wasabi: Option<CloudConfig>, aws: Option<CloudConfig>)
    requires l.locationType !in {WasabiType, AwsType}
    ensures PlanDisk(l, wasabi, aws) == Ok(PublicDisk)
    ensures PlanDisk(l, wasabi, aws).value.Name() == "public"
  {
  }

  /**
   * A Wasabi location gets `dynamic_disk_wasabi_<id>`, credentials and bucket from its config,
   * path-style addressing off, and an endpoint that depends on the region alone.
   */
  lemma WasabiDisk(l: Location, c: CloudConfig, aws: Option<CloudConfig>)
    requires l.locationType == WasabiType
    ensures PlanDisk(l, Some(c), aws).Ok? && PlanDisk(l, Some(c), aws).value.DynamicDisk?
    ensures var d := PlanDisk(l, Some(c), aws).value;
            d.name == "dynamic_disk_wasabi_" + NatToString(l.id)
            && d.config.endpoint == Some("https://s3." + c.region + ".wasabisys.com")
            && d.config.usePathStyleEndpoint == Some(false)
            && d.config.key == c.accessKey && d.config.secret == c.secretKey
            && d.config.region == c.region && d.config.bucket == c.bucket && d.config.throwOnError
  {
  }

  /** An AWS location gets `dynamic_disk_aws_<id>` and no custom endpoint. */
  lemma AwsDisk(l: Location, wasabi: Option<CloudConfig>, c: CloudConfig)
    requires l.locationType == AwsType
    ensures PlanDisk(l, wasabi, Some(c)).Ok? && PlanDisk(l, wasabi, Some(c)).value.DynamicDisk?
    ensures var d := PlanDisk(l, wasabi, Some(c)).value;
            d.name == "dynamic_disk_aws_" + NatToString(l.id)
            && d.config.endpoint.None? && d.config.usePathStyleEndpoint.None?
            && d.config.key == c.accessKey && d.config.secret == c.secretKey
            && d.config.region == c.region && d.config.bucket == c.bucket && d.config.throwOnError
  {
  }

  /** A cloud location without its config record is refused, naming the location. */
  lemma MissingConfigRefused(l: Location, wasabi: Option<CloudConfig>, aws: Option<CloudConfig>)
    ensures l.locationType == WasabiType && wasabi.None? ==> PlanDisk(l, wasabi, aws) == Err(WasabiConfigMissing(l.id))
    ensures l.locationType == AwsType && aws.None? ==> PlanDisk(l, wasabi, aws) == Err(AwsConfigMissing(l.id))
  {
  }

  lemma {:induction false} SameSuffix(p: string, a: string, b: string)
    requires p + a == p + b
    ensures a == b
  {
    assert a == (p + a)[|p|..];
    assert b == (p + b)[|p|..];
  }

  /**
   * Distinct cloud locations never share a registered disk name, so one location's
   * configuration cannot overwrite another's.
   */
  lemma {:induction false} DynamicDiskNamesUnique(l1: Location, l2: Location)
    requires l1.locationType in {WasabiType, AwsType} && l2.locationType in {WasabiType, AwsType}
    requires DynamicDiskName(l1) == DynamicDiskName(l2)
    ensures l1.locationType == l2.locationType && l1.id == l2.id
  {
    var p := "dynamic_disk_";
    var t1, t2 := StorageTypeName(l1.locationType), StorageTypeName(l2.locationType);
    var d1, d2 := NatToString(l1.id), NatToString(l2.id);
    assert DynamicDiskName(l1) == p + (t1 + ("_" + d1));
    assert DynamicDiskName(l2) == p + (t2 + ("_" + d2));
    SameSuffix(p, t1 + ("_" + d1), t2 + ("_" + d2));
    assert t1 == if l1.locationType == WasabiType then "wasabi" else "aws";
    assert t2 == if l2.locationType == WasabiType then "wasabi" else "aws";
    FirstCharOfName(t1, "_" + d1);
    FirstCharOfName(t2, "_" + d2);
    assert t1[0] == t2[0];
    assert t1 == t2;
    SameSuffix(t1, "_" + d1, "_" + d2);
    SameSuffix("_", d1, d2);
    NatToStringInjective(l1.id, l2.id);
  }

  lemma FirstCharOfName(t: string, rest: string)
    requires |t| > 0
    ensures (t + rest)[0] == t[0]
  {
  }
}
