/** The DataType of media frames and headers (rtmp.go:327-329), which the cache, the sender and the muxer go by. */
module DataTypes {
  datatype Kind =
    | Key    // VideoKeyFrame
    | Inter  // VideoInterFrame
    | Aac    // AudioAacFrame

  /** What is cached apart from the media, and sent to a new player first. */
  datatype HeadKind = MetaHead | VideoHead | AudioHead

  /** What a message is to the cache. */
  datatype Content = Plain | Head(head: HeadKind) | MediaFrame(kind: Kind)
}
