/**
 * Numeric codes the vdpa tool shares with the kernel: generic netlink
 * attribute types of the vdpa family (linux/vdpa.h), virtio device ids
 * (linux/virtio_ids.h) and feature bit numbers (linux/virtio_config.h,
 * linux/virtio_net.h; sections 2.2, 5.1.3 and 6 of the VIRTIO 1.1
 * specification).
 */
module VdpaUapi {
  import opened Types

  // enum vdpa_attr
  const AttrMgmtdevBusName: U16 := 1
  const AttrMgmtdevDevName: U16 := 2
  const AttrMgmtdevSupportedClasses: U16 := 3
  const AttrDevName: U16 := 4
  const AttrDevId: U16 := 5
  const AttrDevVendorId: U16 := 6
  const AttrDevMaxVqs: U16 := 7
  const AttrDevMaxVqSize: U16 := 8
  const AttrDevMinVqSize: U16 := 9
  const AttrDevNetCfgMacAddr: U16 := 10
  const AttrDevNetStatus: U16 := 11
  const AttrDevNetCfgMaxVqp: U16 := 12
  const AttrDevNetCfgMtu: U16 := 13
  const AttrDevNegotiatedFeatures: U16 := 14
  const AttrDevMgmtdevMaxVqs: U16 := 15
  const AttrDevSupportedFeatures: U16 := 16
  const AttrDevQueueIndex: U16 := 17
  const AttrDevVendorAttrName: U16 := 18
  const AttrDevVendorAttrValue: U16 := 19
  const AttrDevFeatures: U16 := 20
  /** VDPA_ATTR_MAX: one past the last attribute above. */
  const AttrMax: nat := 21

  // virtio device ids
  const VirtioIdNet: nat := 1
  const VirtioIdBlock: nat := 2

  /** The transport feature range, both ends included. */
  const TransportStart: nat := 28
  const TransportEnd: nat := 38

  /** VIRTIO_NET_F_CTRL_VQ: the device has a control virtqueue. */
  const NetFCtrlVq: nat := 17
}
