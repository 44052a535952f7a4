/** The localized `message` texts of the category repository; no logic depends on them. */
module Messages {
  const ListFailed := "Không thể lấy danh sách danh mục"
  const ListFetched := "Danh sách danh mục đã được lấy thành công"
  const DetailFailed := "Không thể lấy thông tin danh mục"
  const CategoryNotFound := "Không tìm thấy danh mục"
  const DetailFetched := "Thông tin danh mục đã được lấy thành công"
  const CountFailed := "Không thể đếm số lượng danh mục"
  const InvalidData := "Dữ liệu không hợp lệ"
  const InsertFailed := "Không thể thêm danh mục"
  const Inserted := "Danh mục đã được thêm thành công"
  const UpdateFailed := "Không thể cập nhật danh mục"
  const UpdateTargetMissing := "Không tìm thấy danh mục dùng để cập nhật"
  const Updated := "Thông tin danh mục đã được cập nhật thành công"
  const DeleteFailed := "Không thể xóa danh mục"
  const DeleteTargetMissing := "Không tìm thấy danh mục để xóa"
  const Deleted := "Danh mục đã được xóa thành công"
  const StatusFailed := "Không thể cập nhật trạng thái danh mục"
  const FlagTargetMissing := "Không tìm thấy danh mục để cập nhật"
  const StatusUpdated := "Trạng thái danh mục đã được cập nhật thành công"
  const TrashFailed := "Không thể cập nhật trạng thái xoá của danh mục"
  const TrashUpdated := "Trạng thái xoá của danh mục đã được cập nhật thành công"
  const ByStatusFailed := "Không thể lấy danh sách danh mục theo trạng thái"
  const ByStatusFetched := "Danh sách danh mục theo trạng thái đã được lấy thành công"
  const ByTrashFailed := "Không thể lấy danh sách danh mục theo trạng thái xoá"
  const ByTrashFetched := "Danh sách danh mục theo trạng thái xoá đã được lấy thành công"
}
