/** The documents the remote store holds (data/dto/FirebaseDto.kt and the friend DTOs it imports). */
module FirebaseDto {
  import opened Common

  datatype FirebaseLabel = FirebaseLabel(backgroundColor: string, thumbnail: string)

  datatype FirebasePhotoInfo = FirebasePhotoInfo(
    uri: string,
    labelName: string,  // the Kotlin field `label` (a Dafny keyword)
    latitude: Double,
    longitude: Double,
    description: Option<string>,
    datetime: LocalDateTime)

  datatype FirebaseFriend = FirebaseFriend(addedAt: LocalDateTime)

  datatype FirebaseFriendRequest = FirebaseFriendRequest(requestedAt: LocalDateTime, status: string)
}
