/** The parts of a VM's configuration that the modelled code reads. */
module VmConfigs {
  import opened Wrappers
  import opened Words
  import Numa

  datatype Disk = Disk(path: string, readonly: bool, format: string)

  /** confidential stands for a TEE backend other than "none". */
  datatype VmConfig = VmConfig(
    vcpus: U32,
    memoryMb: U32,
    kernel: Option<string>,
    initrd: Option<string>,
    disks: seq<Disk>,
    confidential: bool,
    encrypted: bool,
    numaNode: Option<U32>,
    hugepageSize: Option<Numa.HugePageSize>)
}
