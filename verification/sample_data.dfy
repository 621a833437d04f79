/** The sample data the store is seeded with: five customers, ten
    products (two per customer) and two service records. */
module SampleData {
  import opened Common
  import opened Models
  import opened Dates

  /** The five customers the store starts with. */
  const CustomerSeed: seq<Customer> := [
    Customer("CUST001", "张明", "zhang.ming@example.com", "+86-138-0011-2233",
      "北京市朝阳区建国门外大街1号", Ordinal(2022, 3, 15), Some(Ordinal(1985, 8, 20)),
      Some("优质客户，经常购买高端产品"), 3, 2, ["email", "sms"]),
    Customer("CUST002", "李华", "li.hua@example.com", "+86-139-0022-3344",
      "上海市浦东新区陆家嘴金融中心", Ordinal(2023, 1, 10), Some(Ordinal(1990, 5, 15)),
      Some("企业客户，批量采购"), 5, 1, ["email", "wechat"]),
    Customer("CUST003", "王芳", "wang.fang@example.com", "+86-137-0033-4455",
      "广州市天河区珠江新城", Ordinal(2022, 11, 5), Some(Ordinal(1988, 12, 3)),
      Some("个人用户，偏好智能家居产品"), 2, 0, ["sms", "phone"]),
    Customer("CUST004", "陈强", "chen.qiang@example.com", "+86-136-0044-5566",
      "深圳市南山区科技园", Ordinal(2023, 6, 20), Some(Ordinal(1992, 7, 18)),
      Some("科技爱好者，喜欢最新产品"), 4, 3, ["email", "app"]),
    Customer("CUST005", "刘婷", "liu.ting@example.com", "+86-135-0055-6677",
      "杭州市西湖区文三路", Ordinal(2022, 8, 12), Some(Ordinal(1987, 3, 25)),
      Some("电商客户，经常在线购物"), 3, 1, ["email", "sms", "wechat"])
  ]

  /** The ten products the store starts with, two per customer. */
  const ProductSeed: seq<Product> := [
    Product("PROD001", "SN20240001", "智能电视 65寸", "CUST001",
      Ordinal(2023, 12, 10), Ordinal(2025, 12, 10), "standard", "active"),
    Product("PROD002", "SN20240002", "智能音箱 Pro", "CUST001",
      Ordinal(2023, 8, 15), Ordinal(2024, 8, 15), "extended", "active"),
    Product("PROD003", "SN20240003", "笔记本电脑 X1", "CUST002",
      Ordinal(2024, 1, 20), Ordinal(2025, 1, 20), "premium", "active"),
    Product("PROD004", "SN20240004", "平板电脑 T8", "CUST002",
      Ordinal(2023, 11, 5), Ordinal(2024, 11, 5), "standard", "active"),
    Product("PROD005", "SN20240005", "智能手表 S3", "CUST003",
      Ordinal(2023, 9, 18), Ordinal(2024, 9, 18), "standard", "active"),
    Product("PROD006", "SN20240006", "无线耳机 E2", "CUST003",
      Ordinal(2023, 6, 22), Ordinal(2024, 6, 22), "standard", "expired"),
    Product("PROD007", "SN20240007", "游戏主机 G5", "CUST004",
      Ordinal(2024, 2, 14), Ordinal(2025, 2, 14), "extended", "active"),
    Product("PROD008", "SN20240008", "VR头盔 V2", "CUST004",
      Ordinal(2023, 10, 30), Ordinal(2024, 10, 30), "standard", "active"),
    Product("PROD009", "SN20240009", "数码相机 C9", "CUST005",
      Ordinal(2023, 7, 8), Ordinal(2024, 7, 8), "standard", "active"),
    Product("PROD010", "SN20240010", "打印机 P3", "CUST005",
      Ordinal(2023, 4, 12), Ordinal(2024, 4, 12), "extended", "active")
  ]

  /** The two service records the store starts with. */
  const ServiceRecordSeed: seq<ServiceRecord> := [
    ServiceRecord("SRV001", "SN20240001", "CUST001", Minutes(2024, 1, 15, 10, 0),
      "屏幕维修", "屏幕出现竖线", "王师傅", Completed, 120, Some(110),
      Some("更换屏幕面板，测试正常")),
    ServiceRecord("SRV002", "SN20240003", "CUST002", Minutes(2024, 3, 20, 14, 30),
      "系统升级", "操作系统升级服务", "李工程师", Scheduled, 60, None, None)
  ]

  /** No two seeded customers share an id. */
  lemma SeedCustomerIdsDistinct()
    ensures forall i, j :: 0 <= i < j < |CustomerSeed| ==> CustomerSeed[i].customerId != CustomerSeed[j].customerId
  {
  }

  /** No two seeded products share a serial number. */
  lemma SeedSerialNumbersDistinct()
    ensures forall i, j :: 0 <= i < j < |ProductSeed| ==> ProductSeed[i].serialNumber != ProductSeed[j].serialNumber
  {
  }

  /** The two seeded records have different ids. */
  lemma SeedRecordKeysDistinct()
    ensures forall i, j :: 0 <= i < j < |ServiceRecordSeed| ==> ServiceRecordSeed[i].recordId != ServiceRecordSeed[j].recordId
  {
  }
}
